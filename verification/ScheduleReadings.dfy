/**
  The schedule's days and windows against the calendar and the clock on the wall: a recurring window is
  open from its start's reading to the next reading of its end, on days counted by the Gregorian calendar.
*/
module ScheduleReadings {
  import opened Schedule
  import opened Wrappers
  import opened Zones

  // ----- when a window closes -----

  /** The clock reads `time`, in minutes since midnight, on the date and minute `reading`. */
  predicate AtTime(reading: int, time: int) {
    reading % DAY == time * MINUTE
  }

  /** `closing` is the first reading of `time` after `opening`. */
  ghost predicate IsNextAt(opening: int, time: int, closing: int) {
    opening < closing && AtTime(closing, time) && forall x :: opening < x && AtTime(x, time) ==> closing <= x
  }

  /** A recurring rule's window may open at this reading. */
  predicate OpensAt(r: Rule, opening: int)
    requires !r.pattern.Once?
  {
    AtTime(opening, r.pattern.start) && StartsOn(r.pattern, opening / DAY)
  }

  lemma ReadingOfDay(d: int, time: int)
    requires 0 <= time < 1440
    ensures AtTime(d * DAY + time * MINUTE, time) && (d * DAY + time * MINUTE) / DAY == d
  {
  }

  lemma DayOfReading(reading: int, time: int)
    requires AtTime(reading, time)
    ensures reading == (reading / DAY) * DAY + time * MINUTE
  {
  }

  /** Readings of one time of day are whole days apart. */
  lemma NextDayAtTheSoonest(x: int, y: int, time: int)
    requires AtTime(x, time) && AtTime(y, time) && x < y
    ensures x + DAY <= y
  {
    DayOfReading(x, time);
    DayOfReading(y, time);
  }

  /** The next reading of another time of day is less than a day ahead; on the next date if the time is earlier. */
  lemma NextReading(d: int, start: int, end: int) returns (closing: int)
    requires 0 <= start < 1440 && 0 <= end < 1440 && start != end
    ensures IsNextAt(d * DAY + start * MINUTE, end, closing)
    ensures 0 < closing - (d * DAY + start * MINUTE) < DAY
    ensures closing == (if end < start then d + 1 else d) * DAY + end * MINUTE
  {
    closing := (if end < start then d + 1 else d) * DAY + end * MINUTE;
    ReadingOfDay(if end < start then d + 1 else d, end);
    forall x | d * DAY + start * MINUTE < x && AtTime(x, end) ensures closing <= x {
      if x < closing {
        NextDayAtTheSoonest(x, closing, end);
      }
    }
  }

  lemma NextIsUnique(opening: int, time: int, c: int, c': int)
    requires IsNextAt(opening, time, c) && IsNextAt(opening, time, c')
    ensures c == c'
  {
  }

  /** A window ends where the clock next reads its end after its start, less than a day later on the clock. */
  lemma WindowClosesAtNextReading(r: Rule, opening: int, closing: int)
    requires ValidRule(r) && !r.pattern.Once? && r.pattern.start != r.pattern.end
    requires OpensAt(r, opening) && IsNextAt(opening, r.pattern.end, closing)
    ensures WindowStart(r, opening / DAY) == Wall(r.zone, opening)
    ensures WindowEndOf(r, opening / DAY) == Wall(r.zone, closing)
    ensures 0 < closing - opening < DAY
  {
    var d := opening / DAY;
    DayOfReading(opening, r.pattern.start);
    var next := NextReading(d, r.pattern.start, r.pattern.end);
    NextIsUnique(opening, r.pattern.end, closing, next);
  }

  /** Some reading opens a window of the rule before or at `t`, and the next reading of the end comes after `t`. */
  ghost predicate BetweenReadings(r: Rule, t: int)
    requires !r.pattern.Once?
  {
    exists opening, closing :: OpensAt(r, opening) && IsNextAt(opening, r.pattern.end, closing)
                               && Within(r.zone, opening, t, closing)
  }

  ghost predicate Within(z: Zone, opening: int, t: int, closing: int) {
    && Wall(z, opening).Some? && Wall(z, closing).Some?
    && Wall(z, opening).value <= t < Wall(z, closing).value
  }

  /** Day `d`'s window opens at its reading of the start. */
  lemma OpensOnDay(r: Rule, d: int) returns (opening: int, closing: int)
    requires ValidRule(r) && !r.pattern.Once? && r.pattern.start != r.pattern.end && StartsOn(r.pattern, d)
    ensures OpensAt(r, opening) && IsNextAt(opening, r.pattern.end, closing)
    ensures WindowStart(r, d) == Wall(r.zone, opening) && WindowEndOf(r, d) == Wall(r.zone, closing)
  {
    opening := d * DAY + r.pattern.start * MINUTE;
    ReadingOfDay(d, r.pattern.start);
    closing := NextReading(d, r.pattern.start, r.pattern.end);
    WindowClosesAtNextReading(r, opening, closing);
  }

  lemma CoveredIsBetween(r: Rule, t: int)
    requires ValidRule(r) && !r.pattern.Once? && r.pattern.start != r.pattern.end && Covers(r, t)
    ensures BetweenReadings(r, t)
  {
    var s, e :| IsWindow(r, s, e) && s <= t < e;
    var d :| WindowStart(r, d) == Some(s) && WindowEndOf(r, d) == Some(e);
    var opening, closing := OpensOnDay(r, d);
    assert Within(r.zone, opening, t, closing);
  }

  lemma BetweenIsCovered(r: Rule, t: int, opening: int, closing: int)
    requires ValidRule(r) && r.Applies() && !r.pattern.Once? && r.pattern.start != r.pattern.end
    requires OpensAt(r, opening) && IsNextAt(opening, r.pattern.end, closing) && Within(r.zone, opening, t, closing)
    ensures Covers(r, t)
  {
    WindowClosesAtNextReading(r, opening, closing);
    assert IsWindow(r, Wall(r.zone, opening).value, Wall(r.zone, closing).value);
  }

  /** A rule in force covers exactly the instants between a reading that opens it and the next reading of its end. */
  lemma CoversIffBetweenReadings(r: Rule, t: int)
    requires ValidRule(r) && !r.pattern.Once? && r.pattern.start != r.pattern.end
    ensures Covers(r, t) <==> r.enabled && r.scope != FeatureOnly && BetweenReadings(r, t)
  {
    if Covers(r, t) {
      CoveredIsBetween(r, t);
    }
    if opening, closing :| r.Applies() && OpensAt(r, opening) && IsNextAt(opening, r.pattern.end, closing)
                           && Within(r.zone, opening, t, closing) {
      BetweenIsCovered(r, t, opening, closing);
    }
  }

  /** A window that starts and ends at one time of day is no window. */
  lemma SameTimeCoversNothing(r: Rule, t: int)
    requires ValidRule(r) && !r.pattern.Once? && r.pattern.start == r.pattern.end
    ensures !Covers(r, t)
  {
  }

  // ----- a zone without daylight saving -----

  lemma FixedWall(offset: int, reading: int)
    requires -DAY < offset < DAY && offset % MINUTE == 0 && reading % MINUTE == 0
    ensures Wall(FixedZone(offset), reading) == Some(reading - offset)
  {
    var z, t := FixedZone(offset), reading - offset;
    assert Reads(z, t, reading);
    assert IsEarliest(z, reading, Some(t));
    EarliestIsWall(z, reading, Some(t));
  }

  lemma AtTimeIsOnMinute(reading: int, time: int)
    requires AtTime(reading, time)
    ensures reading % MINUTE == 0
  {
    DayOfReading(reading, time);
    TargetIsOnMinute((reading / DAY) * DAY, time);
  }

  /** With a constant offset the window's instants are those whose local reading lies between opening and closing. */
  lemma FixedZoneCoversIff(r: Rule, offset: int, t: int)
    requires -DAY < offset < DAY && offset % MINUTE == 0 && r.zone == FixedZone(offset)
    requires ValidRule(r) && r.Applies() && !r.pattern.Once? && r.pattern.start != r.pattern.end
    ensures Covers(r, t) <==> exists opening, closing ::
              OpensAt(r, opening) && IsNextAt(opening, r.pattern.end, closing) && opening <= t + offset < closing
  {
    CoversIffBetweenReadings(r, t);
    forall opening, closing | OpensAt(r, opening) && IsNextAt(opening, r.pattern.end, closing)
      ensures Within(r.zone, opening, t, closing) <==> opening <= t + offset < closing
    {
      AtTimeIsOnMinute(opening, r.pattern.start);
      AtTimeIsOnMinute(closing, r.pattern.end);
      FixedWall(offset, opening);
      FixedWall(offset, closing);
    }
  }

  lemma DatedCoversIff(r: Rule, t: int)
    requires r.pattern.Once?
    ensures Covers(r, t) <==> r.enabled && r.scope != FeatureOnly && r.pattern.from <= t < r.pattern.to
  {
    if r.Applies() {
      assert IsWindow(r, r.pattern.from, r.pattern.to);
    }
  }

  /** A daily pattern fires exactly at the instants that an allowed day's reading of its time names. */
  lemma NominalIffReading(p: SchedulePattern, z: Zone, t: int)
    requires ValidZone(z) && ValidPattern(p) && p.Daily?
    ensures Nominal(p, z, t) <==>
              exists reading :: AtTime(reading, p.time) && Weekday(reading / DAY) in p.weekdays && Wall(z, reading) == Some(t)
  {
    if Nominal(p, z, t) {
      var d :| FiresOn(p, z, d) == Some(t);
      ReadingOfDay(d, p.time);
      assert Wall(z, d * DAY + p.time * MINUTE) == Some(t);
    }
    if reading :| AtTime(reading, p.time) && Weekday(reading / DAY) in p.weekdays && Wall(z, reading) == Some(t) {
      DayOfReading(reading, p.time);
      assert FiresOn(p, z, reading / DAY) == Some(t);
    }
  }

  // ----- the calendar -----

  /** The days before the first of `month`, from January 1970. */
  function DaysBefore(month: nat): int {
    if month == 0 then 0 else DaysBefore(month - 1) + MonthLength(month - 1)
  }

  /** Walking forward from an earlier month's first day. */
  lemma {:induction false} WalkForward(from: nat, month: nat, k: int)
    requires from <= month && 1 <= k <= MonthLength(month)
    ensures DaysBefore(from) <= DaysBefore(month)
    ensures DayInMonth(DaysBefore(month) - DaysBefore(from) + k - 1, from) == k
    decreases month - from
  {
    if from < month {
      WalkForward(from + 1, month, k);
      assert DaysBefore(from + 1) == DaysBefore(from) + MonthLength(from);
    }
  }

  /** The `k`th day of a month has date `k`, for every month from January 1970 on. */
  lemma DateOfDay(month: nat, k: int)
    requires 1 <= k <= MonthLength(month)
    ensures DayOfMonth(DaysBefore(month) + k - 1) == k
  {
    WalkForward(0, month, k);
  }

  /** The leap days of the years before `year`. */
  function LeapDaysBefore(year: int): int {
    (year - 1) / 4 - (year - 1) / 100 + (year - 1) / 400
  }

  predicate IsLeap(year: int) {
    year % 4 == 0 && (year % 100 != 0 || year % 400 == 0)
  }

  lemma OneMoreMultiple(year: int, n: int)
    requires n > 0
    ensures year / n - (year - 1) / n == if year % n == 0 then 1 else 0
  {
    var q, rest := (year - 1) / n, (year - 1) % n;
    assert year == n * q + (rest + 1);
    if rest + 1 == n {
      assert year == n * (q + 1) + 0;
      QuotientIs(year, n, q + 1, 0);
    } else {
      QuotientIs(year, n, q, rest + 1);
    }
  }

  lemma QuotientIs(x: int, n: int, q: int, rest: int)
    requires x == n * q + rest && 0 <= rest < n
    ensures x / n == q && x % n == rest
  {
    var q', rest' := x / n, x % n;
    assert (q - q') * n == rest' - rest;
    if q > q' {
      ProductOrder(1, q - q', n);
    } else if q < q' {
      ProductOrder(q - q', -1, n);
    }
  }

  lemma LeapDaysNext(year: int)
    ensures LeapDaysBefore(year + 1) == LeapDaysBefore(year) + if IsLeap(year) then 1 else 0
  {
    OneMoreMultiple(year, 4);
    OneMoreMultiple(year, 100);
    OneMoreMultiple(year, 400);
  }

  /** How long the `k`th month of a year is, January being 0. */
  function LengthInYear(k: nat, leap: bool): int {
    if k == 1 then (if leap then 29 else 28) else if k == 3 || k == 5 || k == 8 || k == 10 then 30 else 31
  }

  lemma MonthOfYear(year: nat, k: nat)
    requires k < 12
    ensures MonthLength(12 * year + k) == LengthInYear(k, IsLeap(1970 + year))
    ensures DaysBefore(12 * year + k + 1) == DaysBefore(12 * year + k) + LengthInYear(k, IsLeap(1970 + year))
  {
    QuotientIs(12 * year + k, 12, year, k);
  }

  lemma FirstHalf(year: nat)
    ensures var m, leap := 12 * year, if IsLeap(1970 + year) then 1 else 0;
      && DaysBefore(m + 1) == DaysBefore(m) + 31
      && DaysBefore(m + 6) == DaysBefore(m) + 181 + leap
  {
    MonthOfYear(year, 0);
    MonthOfYear(year, 1);
    MonthOfYear(year, 2);
    MonthOfYear(year, 3);
    MonthOfYear(year, 4);
    MonthOfYear(year, 5);
  }

  lemma SecondHalf(year: nat)
    ensures DaysBefore(12 * year + 12) == DaysBefore(12 * year + 6) + 184
  {
    MonthOfYear(year, 6);
    MonthOfYear(year, 7);
    MonthOfYear(year, 8);
    MonthOfYear(year, 9);
    MonthOfYear(year, 10);
    MonthOfYear(year, 11);
  }

  /** The months add up to Gregorian years: 365 days each, and the leap days in between. */
  lemma {:induction false} YearsAreGregorian(year: nat)
    ensures DaysBefore(12 * year) == 365 * year + LeapDaysBefore(1970 + year) - LeapDaysBefore(1970)
  {
    if year > 0 {
      YearsAreGregorian(year - 1);
      FirstHalf(year - 1);
      SecondHalf(year - 1);
      LeapDaysNext(1970 + year - 1);
    }
  }

  /** Days from 1 January 1970 to 1 January of a year. */
  function YearStart(year: nat): int {
    365 * year + LeapDaysBefore(1970 + year) - LeapDaysBefore(1970)
  }

  /** Each leap year's day 60 has date 29. */
  lemma LeapDayHasItsDate(year: nat)
    requires IsLeap(1970 + year)
    ensures DayOfMonth(YearStart(year) + 59) == 29
  {
    YearsAreGregorian(year);
    FirstHalf(year);
    MonthOfYear(year, 1);
    DateOfDay(12 * year + 1, 29);
  }

  /** Thursday 1 January 1970, and Thursday 29 February 2024. */
  lemma KnownDates()
    ensures Weekday(0) == 4 && DayOfMonth(0) == 1
    ensures Weekday(19_782) == 4 && DayOfMonth(19_782) == 29
  {
    LeapDayHasItsDate(54);
    DateOfDay(0, 1);
  }

  /** A monthly rule starts on a day exactly when its base day is the nth such weekday of its month. */
  lemma MonthlyStartsIff(p: MaintenancePattern, d: int)
    requires p.Monthly?
    ensures StartsOn(p, d) <==>
              && Weekday(d - p.offsetDays) == p.weekday
              && 7 * (p.nth - 1) < DayOfMonth(d - p.offsetDays) <= 7 * p.nth
  {
  }
}
