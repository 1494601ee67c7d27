/**
  Nominal times and provider maintenance: when a schedule fires next, and when
  collection may run again after the maintenance windows that hold.
*/
module Schedule {
  import opened Wrappers
  import opened Zones

  datatype ScheduleError = InvalidSchedule | ScheduleUnavailable | MaintenanceUnavailable

  // ----- nominal times -----

  /** Times of day are minutes since midnight. */
  datatype SchedulePattern =
    | Daily(time: int, weekdays: seq<int>)
    | Interval(minutes: int)

  predicate ValidWeekdays(weekdays: seq<int>) {
    && 0 < |weekdays| <= 7
    && (forall i, j :: 0 <= i < j < |weekdays| ==> weekdays[i] != weekdays[j])
    && (forall i :: 0 <= i < |weekdays| ==> 0 <= weekdays[i] <= 6)
  }

  predicate ValidPattern(p: SchedulePattern) {
    match p
    case Interval(minutes) => 5 <= minutes <= 1440
    case Daily(time, weekdays) => 0 <= time < 1440 && ValidWeekdays(weekdays)
  }

  /** `getUTCDay` of a day of the epoch, whose first day was a Thursday. */
  function Weekday(d: int): int {
    (d + 4) % 7
  }

  /** When a daily pattern fires on day `d`, if it does. */
  ghost function FiresOn(p: SchedulePattern, z: Zone, d: int): Option<int>
    requires p.Daily?
  {
    if Weekday(d) in p.weekdays then DayWall(z, d, p.time) else None
  }

  /** The pattern fires at `t`. */
  ghost predicate Nominal(p: SchedulePattern, z: Zone, t: int)
    requires ValidPattern(p)
  {
    match p
    case Interval(minutes) => t % (minutes * MINUTE) == 0
    case Daily(_, _) => exists d :: FiresOn(p, z, d) == Some(t)
  }

  ghost predicate IsNextNominal(p: SchedulePattern, z: Zone, after: int, t: int)
    requires ValidPattern(p)
  {
    && t > after && Nominal(p, z, t)
    && forall u :: u > after && Nominal(p, z, u) ==> t <= u
  }

  /** Firing times of later days are later. */
  lemma FiringOrder(p: SchedulePattern, z: Zone, d: int, e: int)
    requires ValidZone(z) && p.Daily? && ValidPattern(p) && d < e
    ensures FiresOn(p, z, d).Some? && FiresOn(p, z, e).Some? ==> FiresOn(p, z, d).value < FiresOn(p, z, e).value
  {
    DayOfWall(z, d, p.time);
    DayOfWall(z, e, p.time);
    if FiresOn(p, z, d).Some? && FiresOn(p, z, e).Some? && FiresOn(p, z, d).value >= FiresOn(p, z, e).value {
      DaysAdvance(z, FiresOn(p, z, e).value, FiresOn(p, z, d).value);
    }
  }

  lemma WeekdayAhead(today: int, w: int) returns (i: int)
    requires 0 <= w <= 6
    ensures 1 <= i <= 7 && Weekday(today + i) == w && Weekday(today + i + 7) == w
  {
    var week, now := (today + 4) / 7, (today + 4) % 7;
    i := if w > now then w - now else w - now + 7;
    assert today + i + 4 == 7 * (if w > now then week else week + 1) + w;
  }

  /** Within two weeks from the day after `today` the pattern fires, although DST may skip one of its times. */
  lemma FiresWithinTwoWeeks(p: SchedulePattern, z: Zone, today: int) returns (i: int)
    requires ValidZone(z) && p.Daily? && ValidPattern(p)
    ensures 1 <= i <= 14 && FiresOn(p, z, today + i).Some?
  {
    var w := p.weekdays[0];
    i := WeekdayAhead(today, w);
    NotSkippedTwice(z, today + i, p.time);
    if FiresOn(p, z, today + i).None? {
      i := i + 7;
    }
  }

  /** A firing after `after` is on the local day of `after` or later; one on a later day is after `after`. */
  lemma FiringDay(p: SchedulePattern, z: Zone, after: int, d: int)
    requires ValidZone(z) && p.Daily? && ValidPattern(p) && FiresOn(p, z, d).Some?
    ensures FiresOn(p, z, d).value > after ==> d >= LocalDay(z, after)
    ensures d > LocalDay(z, after) ==> FiresOn(p, z, d).value > after
  {
    DayOfWall(z, d, p.time);
    if FiresOn(p, z, d).value > after {
      DaysAdvance(z, after, FiresOn(p, z, d).value);
    } else {
      DaysAdvance(z, FiresOn(p, z, d).value, after);
    }
  }

  method NextNominal(pattern: SchedulePattern, zone: Zone, after: int) returns (r: Result<int, ScheduleError>)
    requires ValidZone(zone)
    ensures !ValidPattern(pattern) ==> r == Err(InvalidSchedule)
    ensures ValidPattern(pattern) ==> r.Ok? && IsNextNominal(pattern, zone, after, r.value)
  {
    if !ValidPattern(pattern) {
      return Err(InvalidSchedule);
    }
    if pattern.Interval? {
      var step := pattern.minutes * MINUTE;
      var t := (after / step + 1) * step;
      NextMultiple(after, step);
      return Ok(t);
    }
    var date := LocalDate(zone, after);
    ghost var today := LocalDay(zone, after);
    for i := 0 to 15
      invariant forall k :: today <= k < today + i && FiresOn(pattern, zone, k).Some? ==>
                              FiresOn(pattern, zone, k).value <= after
    {
      var day := date + i * DAY;
      assert day / DAY == today + i && day == (today + i) * DAY;
      if Weekday(day / DAY) in pattern.weekdays {
        var t := At(day, pattern.time, zone);
        assert FiresOn(pattern, zone, today + i) == t;
        if t.Some? && t.value > after {
          FirstFiringIsNext(pattern, zone, after, today + i);
          return Ok(t.value);
        }
      }
    }
    ghost var i := FiresWithinTwoWeeks(pattern, zone, today);
    FiringDay(pattern, zone, after, today + i);
    assert false;
    r := Err(ScheduleUnavailable);
  }

  lemma FirstFiringIsNext(p: SchedulePattern, z: Zone, after: int, d: int)
    requires ValidZone(z) && p.Daily? && ValidPattern(p)
    requires FiresOn(p, z, d).Some? && FiresOn(p, z, d).value > after
    requires forall k :: LocalDay(z, after) <= k < d && FiresOn(p, z, k).Some? ==> FiresOn(p, z, k).value <= after
    ensures IsNextNominal(p, z, after, FiresOn(p, z, d).value)
  {
    var t := FiresOn(p, z, d).value;
    assert Nominal(p, z, t);
    forall u | u > after && Nominal(p, z, u) ensures t <= u {
      var e :| FiresOn(p, z, e) == Some(u);
      FiringDay(p, z, after, e);
      if e > d {
        FiringOrder(p, z, d, e);
      }
    }
  }

  lemma NextMultiple(after: int, step: int)
    requires step > 0
    ensures var t := (after / step + 1) * step;
      t > after && t % step == 0 && forall u :: u > after && u % step == 0 ==> t <= u
  {
    var q := after / step;
    assert (q + 1) * step == q * step + step;
    assert after == q * step + after % step;
    MultipleHasNoRemainder(q + 1, step);
    forall u | u > after && u % step == 0 ensures (q + 1) * step <= u {
      var v := u / step;
      assert u == v * step;
      if v <= q {
        ProductOrder(v, q, step);
      } else {
        ProductOrder(q + 1, v, step);
      }
    }
  }

  lemma MultipleHasNoRemainder(q: int, step: int)
    requires step > 0
    ensures (q * step) % step == 0
  {
    var m, rest := (q * step) / step, (q * step) % step;
    assert (q - m) * step == rest;
    if q > m {
      ProductOrder(1, q - m, step);
    } else if q < m {
      ProductOrder(q - m, -1, step);
    }
  }

  lemma ProductOrder(a: int, b: int, step: int)
    requires a <= b && step > 0
    ensures a * step <= b * step
  {
  }

  // ----- maintenance windows -----

  datatype MaintenancePattern =
    | Weekly(weekdays: seq<int>, start: int, end: int)
    | Monthly(weekday: int, nth: int, offsetDays: int, start: int, end: int)
    | Once(from: int, to: int)

  datatype Scope = Collection | Session | FeatureOnly

  datatype Rule = Rule(zone: Zone, pattern: MaintenancePattern, enabled: bool, scope: Scope)
  {
    predicate Applies() {
      enabled && scope != FeatureOnly
    }
  }

  ghost predicate ValidRule(r: Rule) {
    ValidZone(r.zone) && (!r.pattern.Once? ==> 0 <= r.pattern.start < 1440 && 0 <= r.pattern.end < 1440)
  }

  ghost predicate ValidRules(rules: seq<Rule>) {
    forall i :: 0 <= i < |rules| ==> ValidRule(rules[i])
  }

  /** Days of a month counted from January 1970, in the Gregorian calendar. */
  function MonthLength(month: int): int {
    var m, y := month % 12, 1970 + month / 12;
    if m == 1 then (if y % 4 == 0 && (y % 100 != 0 || y % 400 == 0) then 29 else 28)
    else if m == 3 || m == 5 || m == 8 || m == 10 then 30
    else 31
  }

  /** The date of the day `days` after the first of `month`, walking month by month. */
  function DayInMonth(days: int, month: int): (r: int)
    ensures 1 <= r <= 31
    decreases days < 0, if days < 0 then -days else days
  {
    if days < 0 then DayInMonth(days + MonthLength(month - 1), month - 1)
    else if days >= MonthLength(month) then DayInMonth(days - MonthLength(month), month + 1)
    else days + 1
  }

  /** `getUTCDate` of a day of the epoch. */
  function DayOfMonth(d: int): int {
    DayInMonth(d, 0)
  }

  /** Whether a recurring window starts on day `d`. */
  predicate StartsOn(p: MaintenancePattern, d: int)
    requires !p.Once?
  {
    match p
    case Weekly(weekdays, _, _) => Weekday(d) in weekdays
    case Monthly(weekday, nth, offsetDays, _, _) =>
      Weekday(d - offsetDays) == weekday && (DayOfMonth(d - offsetDays) + 6) / 7 == nth
  }

  /** Where the recurring window of day `d` starts and ends, if both readings exist. */
  ghost function WindowStart(r: Rule, d: int): Option<int>
    requires !r.pattern.Once?
  {
    if StartsOn(r.pattern, d) then DayWall(r.zone, d, r.pattern.start) else None
  }

  ghost function WindowEndOf(r: Rule, d: int): Option<int>
    requires !r.pattern.Once?
  {
    DayWall(r.zone, if r.pattern.end < r.pattern.start then d + 1 else d, r.pattern.end)
  }

  ghost predicate IsWindow(r: Rule, s: int, e: int) {
    && r.Applies()
    && if r.pattern.Once? then s == r.pattern.from && e == r.pattern.to
       else exists d :: WindowStart(r, d) == Some(s) && WindowEndOf(r, d) == Some(e)
  }

  /** Some window of the rule holds at `t`. */
  ghost predicate Covers(r: Rule, t: int) {
    exists s, e :: IsWindow(r, s, e) && s <= t < e
  }

  /** Collection may not run at `t`. */
  ghost predicate Blocked(rules: seq<Rule>, t: int) {
    exists i :: 0 <= i < |rules| && Covers(rules[i], t)
  }

  /** A window that holds at `t` started on the local day of `t` or the day before: the look-back misses none. */
  lemma HoldingWindowIsRecent(r: Rule, d: int, t: int)
    requires ValidRule(r) && !r.pattern.Once?
    requires WindowStart(r, d).Some? && WindowEndOf(r, d).Some? && WindowStart(r, d).value <= t < WindowEndOf(r, d).value
    ensures LocalDay(r.zone, t) - 1 <= d <= LocalDay(r.zone, t)
  {
    var s, e := WindowStart(r, d).value, WindowEndOf(r, d).value;
    DayOfWall(r.zone, d, r.pattern.start);
    DayOfWall(r.zone, if r.pattern.end < r.pattern.start then d + 1 else d, r.pattern.end);
    DaysAdvance(r.zone, s, t);
    DaysAdvance(r.zone, t, e);
  }

  /** The window of day `d` holds at `t`. */
  ghost predicate HoldsFrom(r: Rule, d: int, t: int)
    requires !r.pattern.Once?
  {
    && WindowStart(r, d).Some? && WindowEndOf(r, d).Some?
    && WindowStart(r, d).value <= t < WindowEndOf(r, d).value
  }

  lemma NothingRecentHolds(r: Rule, t: int)
    requires ValidRule(r) && !r.pattern.Once?
    requires forall d :: LocalDay(r.zone, t) - 8 < d <= LocalDay(r.zone, t) ==> !HoldsFrom(r, d, t)
    ensures !Covers(r, t)
  {
    if s, e :| IsWindow(r, s, e) && s <= t < e {
      var d :| WindowStart(r, d) == Some(s) && WindowEndOf(r, d) == Some(e);
      HoldingWindowIsRecent(r, d, t);
      assert HoldsFrom(r, d, t);
    }
  }

  lemma HoldsFromIsWindow(r: Rule, d: int, t: int)
    requires r.Applies() && !r.pattern.Once? && HoldsFrom(r, d, t)
    ensures IsWindow(r, WindowStart(r, d).value, WindowEndOf(r, d).value) && Covers(r, t)
  {
  }

  /** A window of the rule holds at `t` and ends at `e`. */
  ghost predicate EndsAt(r: Rule, t: int, e: int) {
    t < e && exists s :: IsWindow(r, s, e) && s <= t
  }

  /** One rule's windows do not overlap: an earlier day's window is over before a later day's starts. */
  lemma WindowsAreDisjoint(r: Rule, d: int, d': int)
    requires ValidRule(r) && !r.pattern.Once? && d < d'
    requires WindowEndOf(r, d).Some? && WindowStart(r, d').Some?
    ensures WindowEndOf(r, d).value < WindowStart(r, d').value
  {
    var p := r.pattern;
    var last := if p.end < p.start then d + 1 else d;
    TargetIsOnMinute(last * DAY, p.end);
    TargetIsOnMinute(d' * DAY, p.start);
    WallIsMonotone(r.zone, last * DAY + p.end * MINUTE, d' * DAY + p.start * MINUTE);
  }

  lemma EndIsUnique(r: Rule, t: int, e: int, e': int)
    requires ValidRule(r) && EndsAt(r, t, e) && EndsAt(r, t, e')
    ensures e == e'
  {
    var s :| IsWindow(r, s, e) && s <= t;
    var s' :| IsWindow(r, s', e') && s' <= t;
    if !r.pattern.Once? {
      var d :| WindowStart(r, d) == Some(s) && WindowEndOf(r, d) == Some(e);
      var d' :| WindowStart(r, d') == Some(s') && WindowEndOf(r, d') == Some(e');
      if d < d' {
        WindowsAreDisjoint(r, d, d');
      } else if d' < d {
        WindowsAreDisjoint(r, d', d);
      }
    }
  }

  /** The readings that bound the window of a start date. */
  method WindowBounds(startDate: int, rule: Rule) returns (start: Option<int>, end: Option<int>)
    requires ValidRule(rule) && !rule.pattern.Once? && startDate % DAY == 0
    ensures start == DayWall(rule.zone, startDate / DAY, rule.pattern.start)
    ensures end == WindowEndOf(rule, startDate / DAY)
  {
    var p := rule.pattern;
    start := At(startDate, p.start, rule.zone);
    end := At(startDate + (if p.end < p.start then DAY else 0), p.end, rule.zone);
  }

  /** The end of a window of the rule that holds at `t`; none exactly when no window does. */
  method WindowEnd(t: int, rule: Rule) returns (r: Option<int>)
    requires ValidRule(rule)
    ensures r.None? <==> !Covers(rule, t)
    ensures r.Some? ==> r.value > t && exists s :: IsWindow(rule, s, r.value) && s <= t
  {
    if !rule.Applies() {
      return None;
    }
    var p := rule.pattern;
    if p.Once? {
      if p.from <= t < p.to {
        assert IsWindow(rule, p.from, p.to);
        return Some(p.to);
      }
      return None;
    }
    var date := LocalDate(rule.zone, t);
    ghost var today := LocalDay(rule.zone, t);
    for back := 0 to 8
      invariant forall d :: today - back < d <= today ==> !HoldsFrom(rule, d, t)
    {
      var startDate := date - back * DAY;
      assert startDate % DAY == 0 && startDate / DAY == today - back;
      if StartsOn(p, startDate / DAY) {
        var start, end := WindowBounds(startDate, rule);
        if start.Some? && end.Some? && start.value <= t < end.value {
          HoldsFromIsWindow(rule, today - back, t);
          return end;
        }
      }
    }
    NothingRecentHolds(rule, t);
    r := None;
  }

  /** The date of the next day is one more, or the first of a month. */
  lemma {:induction false} NextDate(days: int, month: int)
    ensures DayInMonth(days + 1, month) == DayInMonth(days, month) + 1 || DayInMonth(days + 1, month) == 1
    decreases days < 0, if days < 0 then -days else days
  {
    if days < 0 {
      if days + 1 < 0 {
        NextDate(days + MonthLength(month - 1), month - 1);
      } else {
        assert DayInMonth(0, month) == 1;
      }
    } else if days >= MonthLength(month) {
      NextDate(days - MonthLength(month), month + 1);
    }
  }

  /** Going back within a month counts its dates down. */
  lemma {:induction false} EarlierInMonth(d: int, back: nat)
    requires back < DayOfMonth(d)
    ensures DayOfMonth(d - back) == DayOfMonth(d) - back
  {
    if back > 0 {
      EarlierInMonth(d, back - 1);
      NextDate(d - back, 0);
    }
  }

  /** A monthly window's base day is the nth of its weekday: `nth - 1` of its month's days share it, each a week earlier. */
  lemma MonthlyBaseIsNth(p: MaintenancePattern, d: int, k: nat)
    requires p.Monthly? && StartsOn(p, d)
    ensures var base := d - p.offsetDays;
      && Weekday(base - 7 * k) == p.weekday
      && (k < p.nth ==> DayOfMonth(base - 7 * k) == DayOfMonth(base) - 7 * k)
      && (k == p.nth ==> DayOfMonth(base) - 7 * k < 1)
  {
    if k < p.nth {
      EarlierInMonth(d - p.offsetDays, 7 * k);
    }
  }

  // ----- when collection may run again -----

  ghost predicate BlockedThroughout(rules: seq<Rule>, from: int, to: int) {
    forall u :: from <= u < to ==> Blocked(rules, u)
  }

  /** `r` is the least instant from `t` on at which no window holds. */
  ghost predicate IsNextFree(rules: seq<Rule>, t: int, r: int) {
    t <= r && !Blocked(rules, r) && BlockedThroughout(rules, t, r)
  }

  /** `e` is the latest end of the first `n` rules' windows that hold at `t`. */
  ghost predicate IsLatestOf(rules: seq<Rule>, n: nat, t: int, e: int)
    requires n <= |rules|
  {
    && (exists i :: 0 <= i < n && EndsAt(rules[i], t, e))
    && forall i, e' :: 0 <= i < n && EndsAt(rules[i], t, e') ==> e' <= e
  }

  ghost predicate IsLatestEnd(rules: seq<Rule>, t: int, e: int) {
    IsLatestOf(rules, |rules|, t, e)
  }

  /** The latest end of the windows that hold at `t`. */
  method LatestEnd(t: int, rules: seq<Rule>) returns (latest: Option<int>)
    requires ValidRules(rules)
    ensures latest.None? <==> !Blocked(rules, t)
    ensures latest.Some? ==> latest.value > t && BlockedThroughout(rules, t, latest.value)
    ensures latest.Some? ==> IsLatestEnd(rules, t, latest.value)
  {
    latest := None;
    for i := 0 to |rules|
      invariant latest.None? ==> forall j :: 0 <= j < i ==> !Covers(rules[j], t)
      invariant latest.Some? ==> IsLatestOf(rules, i, t, latest.value)
    {
      var end := WindowEnd(t, rules[i]);
      LatestSoFar(rules, i, t, latest, end);
      if end.Some? && (latest.None? || end.value > latest.value) {
        latest := end;
      }
    }
    if latest.Some? {
      LatestEndBlocks(rules, t, latest.value);
    }
  }

  lemma EndsAtCovers(r: Rule, t: int, e: int)
    requires EndsAt(r, t, e)
    ensures forall u :: t <= u < e ==> Covers(r, u)
  {
    var s :| IsWindow(r, s, e) && s <= t;
    forall u | t <= u < e ensures Covers(r, u) {
      assert IsWindow(r, s, e) && s <= u < e;
    }
  }

  lemma LatestSoFar(rules: seq<Rule>, i: nat, t: int, latest: Option<int>, end: Option<int>)
    requires ValidRules(rules) && i < |rules|
    requires latest.None? ==> forall j :: 0 <= j < i ==> !Covers(rules[j], t)
    requires latest.Some? ==> IsLatestOf(rules, i, t, latest.value)
    requires end.None? <==> !Covers(rules[i], t)
    requires end.Some? ==> EndsAt(rules[i], t, end.value)
    ensures end.Some? && (latest.None? || end.value > latest.value) ==> IsLatestOf(rules, i + 1, t, end.value)
    ensures latest.Some? && (end.None? || end.value <= latest.value) ==> IsLatestOf(rules, i + 1, t, latest.value)
  {
    forall j, e | 0 <= j < i + 1 && EndsAt(rules[j], t, e)
      ensures (j < i && latest.Some? && e <= latest.value) || (j == i && end == Some(e))
    {
      EndsAtCovers(rules[j], t, e);
      if j == i {
        EndIsUnique(rules[i], t, e, end.value);
      }
    }
  }

  lemma LatestEndBlocks(rules: seq<Rule>, t: int, e: int)
    requires IsLatestEnd(rules, t, e)
    ensures t < e && BlockedThroughout(rules, t, e)
  {
    var i :| 0 <= i < |rules| && EndsAt(rules[i], t, e);
    EndsAtCovers(rules[i], t, e);
  }

  /** Where following `n` latest ends from `t` leads; a free instant leads nowhere. */
  ghost function Followed(rules: seq<Rule>, t: int, n: nat): int {
    if n == 0 then t
    else var last := Followed(rules, t, n - 1);
      if e :| IsLatestEnd(rules, last, e) then e else last
  }

  lemma FollowedStep(rules: seq<Rule>, t: int, n: nat, e: int)
    requires IsLatestEnd(rules, Followed(rules, t, n), e)
    ensures Followed(rules, t, n + 1) == e
  {
  }

  /** Once free, following further ends changes nothing. */
  lemma {:induction false} FollowedStays(rules: seq<Rule>, t: int, n: nat, m: nat)
    requires n <= m && !Blocked(rules, Followed(rules, t, n))
    ensures Followed(rules, t, m) == Followed(rules, t, n)
  {
    if n < m {
      FollowedStays(rules, t, n, m - 1);
      var last := Followed(rules, t, m - 1);
      if e :| IsLatestEnd(rules, last, e) {
        LatestEndBlocks(rules, last, e);
      }
    }
  }

  /**
    The least instant from `t` on outside every window.  It fails exactly when the
    instant that 999 latest ends lead to is blocked: the last of the thousand
    steps is taken but its end never looked at.
   */
  method AfterMaintenance(t: int, rules: seq<Rule>) returns (r: Result<int, ScheduleError>)
    requires ValidRules(rules)
    ensures r.Ok? ==> IsNextFree(rules, t, r.value)
    ensures r.Err? ==> r.error == MaintenanceUnavailable && BlockedThroughout(rules, t, t + 1000)
    ensures r.Err? <==> Blocked(rules, Followed(rules, t, 999))
  {
    var result := t;
    for i := 0 to 1000
      invariant result >= t + i && BlockedThroughout(rules, t, result)
      invariant result == Followed(rules, t, i)
      invariant i > 0 ==> Blocked(rules, Followed(rules, t, i - 1))
    {
      var end := LatestEnd(result, rules);
      if end.None? {
        FollowedStays(rules, t, i, 999);
        return Ok(result);
      }
      if end.value <= result {
        assert false;
        return Err(MaintenanceUnavailable);
      }
      FollowedStep(rules, t, i, end.value);
      result := end.value;
    }
    r := Err(MaintenanceUnavailable);
  }

  /** `n` dated windows back to back. */
  function BackToBack(n: nat): seq<Rule> {
    seq(n, i => Rule(FixedZone(0), Once(i, i + 1), true, Collection))
  }

  lemma BackToBackEnds(n: nat, t: int)
    ensures 0 <= t < n ==> IsLatestEnd(BackToBack(n), t, t + 1)
    ensures Blocked(BackToBack(n), t) <==> 0 <= t < n
  {
    var rules := BackToBack(n);
    if 0 <= t < n {
      assert IsWindow(rules[t], t, t + 1);
      assert EndsAt(rules[t], t, t + 1);
      assert Covers(rules[t], t);
    }
  }

  lemma {:induction false} BackToBackFollowed(n: nat, k: nat)
    requires k <= n
    ensures Followed(BackToBack(n), 0, k) == k
  {
    if k > 0 {
      BackToBackFollowed(n, k - 1);
      BackToBackEnds(n, k - 1);
    }
  }

  /** A thousand windows in a row are refused although collection may run right after them; one fewer is not. */
  lemma ThousandWindowsAreRefused(n: nat)
    requires n >= 999
    ensures Blocked(BackToBack(n), Followed(BackToBack(n), 0, 999)) <==> n >= 1000
    ensures ValidRules(BackToBack(n)) && IsNextFree(BackToBack(n), 0, n)
  {
    FixedZoneIsValid(0);
    BackToBackFollowed(n, 999);
    BackToBackEnds(n, 999);
    forall t ensures Blocked(BackToBack(n), t) <==> 0 <= t < n {
      BackToBackEnds(n, t);
    }
  }

  lemma NextFreeIsUnique(rules: seq<Rule>, t: int, r: int, r': int)
    requires IsNextFree(rules, t, r) && IsNextFree(rules, t, r')
    ensures r == r'
  {
  }

  /** Asking again from the answer changes nothing, and a later question has no earlier answer. */
  lemma NextFreeIsStableAndMonotone(rules: seq<Rule>, t: int, r: int, u: int, v: int)
    requires IsNextFree(rules, t, r) && IsNextFree(rules, u, v) && t <= u
    ensures IsNextFree(rules, r, r) && r <= v && (u <= r ==> v == r)
  {
  }

  // ----- joined deferrals -----

  datatype DeferralUnion = DeferralUnion(start: int, end: int)

  /** A start that a rule contributes: a dated window later than `from`, or a recurring one within the horizon. */
  ghost predicate RuleStart(r: Rule, from: int, horizon: int, s: int) {
    && r.Applies() && s > from
    && if r.pattern.Once? then s == r.pattern.from
       else s < from + horizon && exists d :: WindowStart(r, d) == Some(s) && d * DAY <= from + horizon
  }

  ghost predicate Enumerated(rules: seq<Rule>, from: int, horizon: int, s: int) {
    s == from || exists i :: 0 <= i < |rules| && RuleStart(rules[i], from, horizon, s)
  }

  /** Day `d`'s window starts at an instant that counts. */
  ghost predicate StartCounts(r: Rule, from: int, horizon: int, d: int)
    requires !r.pattern.Once?
  {
    WindowStart(r, d).Some? && from < WindowStart(r, d).value < from + horizon
  }

  lemma CountedStart(r: Rule, from: int, horizon: int, d: int)
    requires r.Applies() && !r.pattern.Once? && StartCounts(r, from, horizon, d) && d * DAY <= from + horizon
    ensures RuleStart(r, from, horizon, WindowStart(r, d).value)
  {
  }

  /** The date loop begins early enough: a start after `from` is not on an earlier local day. */
  lemma StartIsNotBefore(r: Rule, from: int, horizon: int, d: int)
    requires ValidRule(r) && !r.pattern.Once? && StartCounts(r, from, horizon, d)
    ensures d >= LocalDay(r.zone, from)
  {
    DayOfWall(r.zone, d, r.pattern.start);
    DaysAdvance(r.zone, from, WindowStart(r, d).value);
  }

  method RecurringStarts(rule: Rule, from: int, horizon: int) returns (starts: set<int>)
    requires ValidRule(rule) && rule.Applies() && !rule.pattern.Once?
    ensures forall s :: s in starts <==> RuleStart(rule, from, horizon, s)
  {
    starts := {};
    var date := LocalDate(rule.zone, from) - DAY;
    ghost var d := LocalDay(rule.zone, from) - 1;
    while date <= from + horizon
      invariant date == d * DAY
      invariant forall s :: s in starts ==> RuleStart(rule, from, horizon, s)
      invariant forall k :: LocalDay(rule.zone, from) - 1 <= k < d && StartCounts(rule, from, horizon, k) ==>
                              WindowStart(rule, k).value in starts
    {
      assert date % DAY == 0 && date / DAY == d;
      if StartsOn(rule.pattern, date / DAY) {
        var start := At(date, rule.pattern.start, rule.zone);
        assert start == WindowStart(rule, d);
        if start.Some? && from < start.value < from + horizon {
          CountedStart(rule, from, horizon, d);
          starts := starts + {start.value};
        }
      }
      date, d := date + DAY, d + 1;
    }
    forall s | RuleStart(rule, from, horizon, s) ensures s in starts {
      var k :| WindowStart(rule, k) == Some(s) && k * DAY <= from + horizon;
      StartIsNotBefore(rule, from, horizon, k);
    }
  }

  method Starts(rules: seq<Rule>, from: int, horizon: int) returns (starts: set<int>)
    requires ValidRules(rules)
    ensures forall s :: s in starts <==> Enumerated(rules, from, horizon, s)
  {
    starts := {from};
    for i := 0 to |rules|
      invariant forall s :: s in starts <==> s == from || exists j :: 0 <= j < i && RuleStart(rules[j], from, horizon, s)
    {
      var rule := rules[i];
      var more: set<int> := {};
      if rule.Applies() {
        if rule.pattern.Once? {
          if rule.pattern.from > from {
            more := {rule.pattern.from};
          }
        } else {
          more := RecurringStarts(rule, from, horizon);
        }
      }
      assert forall s :: s in more <==> RuleStart(rule, from, horizon, s);
      starts := starts + more;
    }
  }

  method Ascending(starts: set<int>) returns (q: seq<int>)
    ensures forall s :: s in starts <==> s in q
    ensures forall i, j :: 0 <= i < j < |q| ==> q[i] < q[j]
  {
    q := [];
    var rest := starts;
    while rest != {}
      invariant forall s :: s in starts <==> s in q || s in rest
      invariant forall i, j :: 0 <= i < j < |q| ==> q[i] < q[j]
      invariant forall i, s :: 0 <= i < |q| && s in rest ==> q[i] < s
    {
      var least := Pick(rest);
      var seen := {least};
      while rest - seen != {}
        invariant seen <= rest && least in seen && forall s :: s in seen ==> least <= s
        decreases rest - seen
      {
        var s := Pick(rest - seen);
        seen := seen + {s};
        if s < least {
          least := s;
        }
      }
      q := q + [least];
      rest := rest - {least};
    }
  }

  /** Follows one chain of windows from `start`, for at most `cap` milliseconds. */
  method FollowChain(rules: seq<Rule>, start: int, cap: int) returns (t: int)
    requires ValidRules(rules)
    ensures t >= start && BlockedThroughout(rules, start, t)
    ensures Blocked(rules, start) && cap >= 0 ==> t > start
    ensures t - start <= cap ==> !Blocked(rules, t)
  {
    t := start;
    while t - start <= cap
      invariant t >= start && BlockedThroughout(rules, start, t)
      decreases start + cap - t
    {
      var end := LatestEnd(t, rules);
      if end.None? {
        return;
      }
      t := end.value;
    }
  }

  /** Ordered, disjoint, blocked throughout, from an enumerated start, and ending at the next free instant up to `cap`. */
  ghost predicate UnionsOk(rules: seq<Rule>, from: int, horizon: int, cap: int, us: seq<DeferralUnion>) {
    && (forall i :: 0 <= i < |us| ==>
          && us[i].start < us[i].end && Enumerated(rules, from, horizon, us[i].start)
          && BlockedThroughout(rules, us[i].start, us[i].end)
          && (us[i].end - us[i].start <= cap ==> !Blocked(rules, us[i].end)))
    && (forall i, j :: 0 <= i < j < |us| ==> us[i].end <= us[j].start)
  }

  ghost predicate InUnion(us: seq<DeferralUnion>, u: int) {
    exists i :: 0 <= i < |us| && us[i].start <= u < us[i].end
  }

  method JoinedDeferrals(rules: seq<Rule>, from: int, horizon: int, cap: int) returns (us: seq<DeferralUnion>)
    requires ValidRules(rules)
    ensures IsJoined(rules, from, horizon, cap, us)
  {
    var starts := Starts(rules, from, horizon);
    var q := Ascending(starts);
    us := [];
    var reach: Option<int> := None;
    for k := 0 to |q|
      invariant UnionsOk(rules, from, horizon, cap, us)
      invariant reach.Some? ==> k > 0
      invariant us != [] ==> reach.Some? && us[|us| - 1].end <= reach.value
      invariant reach.Some? && reach.value > q[k - 1] ==>
                  us != [] && us[|us| - 1].start <= q[k - 1] && us[|us| - 1].end == reach.value
      invariant cap >= 0 ==> Served(rules, us, q[..k])
    {
      var start := q[k];
      assert q[..k + 1] == q[..k] + [start];
      if reach.Some? && start < reach.value {
        assert q[k - 1] < start;
        assert InUnion(us, start);
        continue;
      }
      var t := FollowChain(rules, start, cap);
      reach := Some(t);
      if t > start {
        UnionAdded(rules, from, horizon, cap, us, DeferralUnion(start, t));
        us := us + [DeferralUnion(start, t)];
      }
    }
    assert q[..|q|] == q;
  }

  /** Every blocked start handled so far is in a union. */
  ghost predicate Served(rules: seq<Rule>, us: seq<DeferralUnion>, starts: seq<int>) {
    forall s :: s in starts && Blocked(rules, s) ==> InUnion(us, s)
  }

  lemma UnionAdded(rules: seq<Rule>, from: int, horizon: int, cap: int, us: seq<DeferralUnion>, next: DeferralUnion)
    requires UnionsOk(rules, from, horizon, cap, us)
    requires us != [] ==> us[|us| - 1].end <= next.start
    requires next.start < next.end && Enumerated(rules, from, horizon, next.start)
    requires BlockedThroughout(rules, next.start, next.end)
    requires next.end - next.start <= cap ==> !Blocked(rules, next.end)
    ensures UnionsOk(rules, from, horizon, cap, us + [next])
    ensures forall u :: InUnion(us + [next], u) <==> InUnion(us, u) || next.start <= u < next.end
  {
    var vs := us + [next];
    forall u ensures InUnion(vs, u) <==> InUnion(us, u) || next.start <= u < next.end {
      if i :| 0 <= i < |us| && us[i].start <= u < us[i].end {
        assert vs[i] == us[i];
      }
      assert vs[|us|] == next;
    }
    forall i, j | 0 <= i < j < |vs| ensures vs[i].end <= vs[j].start {
      if j == |us| && i < |us| - 1 {
        assert us[i].end <= us[|us| - 1].start;
      }
    }
  }

  /** `u` is blocked without a gap since some enumerated start. */
  ghost predicate Chained(rules: seq<Rule>, from: int, horizon: int, u: int) {
    exists s :: Enumerated(rules, from, horizon, s) && s <= u && BlockedThroughout(rules, s, u + 1)
  }

  ghost predicate WithinCap(us: seq<DeferralUnion>, cap: int) {
    forall i :: 0 <= i < |us| ==> us[i].end - us[i].start <= cap
  }

  /** What `JoinedDeferrals` promises of its result. */
  ghost predicate IsJoined(rules: seq<Rule>, from: int, horizon: int, cap: int, us: seq<DeferralUnion>) {
    && UnionsOk(rules, from, horizon, cap, us)
    && (cap >= 0 ==> forall s :: Enumerated(rules, from, horizon, s) && Blocked(rules, s) ==> InUnion(us, s))
  }

  lemma InUnionIsChained(rules: seq<Rule>, from: int, horizon: int, cap: int, us: seq<DeferralUnion>, i: nat, u: int)
    requires UnionsOk(rules, from, horizon, cap, us)
    requires i < |us| && us[i].start <= u < us[i].end
    ensures Chained(rules, from, horizon, u)
  {
    assert Enumerated(rules, from, horizon, us[i].start) && BlockedThroughout(rules, us[i].start, u + 1);
  }

  lemma ChainedIsInUnion(rules: seq<Rule>, from: int, horizon: int, cap: int, us: seq<DeferralUnion>, s: int, u: int)
    requires IsJoined(rules, from, horizon, cap, us) && cap >= 0 && WithinCap(us, cap)
    requires Enumerated(rules, from, horizon, s) && s <= u && BlockedThroughout(rules, s, u + 1)
    ensures InUnion(us, u)
  {
    assert InUnion(us, s);
    var i :| 0 <= i < |us| && us[i].start <= s < us[i].end;
    assert !Blocked(rules, us[i].end);
  }

  /** When no chain outgrew the cap, the unions are exactly the instants blocked without a gap since an enumerated start. */
  lemma UnionsAreTheChains(rules: seq<Rule>, from: int, horizon: int, cap: int, us: seq<DeferralUnion>, u: int)
    requires IsJoined(rules, from, horizon, cap, us) && cap >= 0 && WithinCap(us, cap)
    ensures InUnion(us, u) <==> Chained(rules, from, horizon, u)
  {
    if i :| 0 <= i < |us| && us[i].start <= u < us[i].end {
      InUnionIsChained(rules, from, horizon, cap, us, i, u);
    }
    if s :| Enumerated(rules, from, horizon, s) && s <= u && BlockedThroughout(rules, s, u + 1) {
      ChainedIsInUnion(rules, from, horizon, cap, us, s, u);
    }
  }

  /**
    Every instant from `from` on of a window that already holds at `from`, is
    dated, or starts within the horizon, is in a union.
   */
  lemma WindowsAreJoined(rules: seq<Rule>, from: int, horizon: int, cap: int, us: seq<DeferralUnion>,
                         i: nat, s: int, e: int, u: int)
    requires IsJoined(rules, from, horizon, cap, us) && cap >= 0 && WithinCap(us, cap)
    requires i < |rules| && IsWindow(rules[i], s, e) && from <= u && s <= u < e
    requires s <= from || rules[i].pattern.Once? || RuleStart(rules[i], from, horizon, s)
    ensures InUnion(us, u)
  {
    var begin := if s <= from then from else s;
    assert Enumerated(rules, from, horizon, begin);
    forall v | begin <= v < u + 1 ensures Blocked(rules, v) {
      assert Covers(rules[i], v);
    }
    UnionsAreTheChains(rules, from, horizon, cap, us, u);
  }

  /** A union within the cap ends where collection resumes after its start, the answer of `AfterMaintenance`. */
  lemma UnionEndsAtNextFree(rules: seq<Rule>, from: int, horizon: int, cap: int, us: seq<DeferralUnion>, i: nat, r: int)
    requires IsJoined(rules, from, horizon, cap, us) && i < |us| && us[i].end - us[i].start <= cap
    ensures IsNextFree(rules, us[i].start, r) <==> r == us[i].end
  {
    if IsNextFree(rules, us[i].start, r) {
      NextFreeIsUnique(rules, us[i].start, r, us[i].end);
    }
  }

  /** `longest` is the greatest deferral of a chained instant, or zero when there is none. */
  ghost predicate IsLongest(rules: seq<Rule>, from: int, horizon: int, longest: int) {
    && (forall u :: Chained(rules, from, horizon, u) ==> exists f :: IsNextFree(rules, u, f))
    && (forall u, f :: Chained(rules, from, horizon, u) && IsNextFree(rules, u, f) ==> f - u <= longest)
    && (if longest == 0 then forall u :: !Chained(rules, from, horizon, u)
        else exists u, f :: Chained(rules, from, horizon, u) && IsNextFree(rules, u, f) && f - u == longest)
  }

  /** Some chain from an enumerated start lasts more than `cap`. */
  ghost predicate LastsLonger(rules: seq<Rule>, from: int, horizon: int, cap: int) {
    exists s :: Enumerated(rules, from, horizon, s) && BlockedThroughout(rules, s, s + cap + 1)
  }

  lemma LongUnionLastsLonger(rules: seq<Rule>, from: int, horizon: int, cap: int, us: seq<DeferralUnion>, k: nat)
    requires IsJoined(rules, from, horizon, cap, us) && k < |us|
    requires us[k].end - us[k].start > cap || cap < 0
    ensures LastsLonger(rules, from, horizon, cap)
  {
    assert Enumerated(rules, from, horizon, us[k].start);
    assert BlockedThroughout(rules, us[k].start, us[k].start + cap + 1);
  }

  /** The longest union, or the first one found longer than `cap`. */
  method LongestUnion(us: seq<DeferralUnion>, cap: int) returns (longest: int)
    requires forall i :: 0 <= i < |us| ==> us[i].start < us[i].end
    ensures longest >= 0
    ensures longest > 0 ==> exists i :: 0 <= i < |us| && us[i].end - us[i].start == longest
    ensures longest == 0 ==> us == []
    ensures longest <= cap ==> WithinCap(us, longest)
  {
    longest := 0;
    for k := 0 to |us|
      invariant 0 <= longest && WithinCap(us[..k], longest)
      invariant longest == 0 ==> k == 0
      invariant longest > 0 ==> exists i :: 0 <= i < k && us[i].end - us[i].start == longest
    {
      if us[k].end - us[k].start > longest {
        longest := us[k].end - us[k].start;
      }
      if longest > cap {
        return;
      }
    }
  }

  /** Exact up to `cap`; above it, some chain does last more than `cap`. */
  method LongestDeferral(rules: seq<Rule>, from: int, horizon: int, cap: int) returns (longest: int)
    requires ValidRules(rules)
    ensures longest >= 0
    ensures longest <= cap ==> IsLongest(rules, from, horizon, longest)
    ensures longest > cap >= 0 ==> LastsLonger(rules, from, horizon, cap)
  {
    var us := JoinedDeferrals(rules, from, horizon, cap);
    longest := LongestUnion(us, cap);
    if longest <= cap {
      LongestUnionIsLongest(rules, from, horizon, cap, us, longest);
    } else if cap >= 0 {
      ghost var k :| 0 <= k < |us| && us[k].end - us[k].start == longest;
      LongUnionLastsLonger(rules, from, horizon, cap, us, k);
    }
  }

  lemma LongestUnionIsLongest(rules: seq<Rule>, from: int, horizon: int, cap: int, us: seq<DeferralUnion>, longest: int)
    requires IsJoined(rules, from, horizon, cap, us) && 0 <= longest <= cap && WithinCap(us, longest)
    requires longest == 0 ==> us == []
    requires longest > 0 ==> exists i :: 0 <= i < |us| && us[i].end - us[i].start == longest
    ensures IsLongest(rules, from, horizon, longest)
  {
    forall u | Chained(rules, from, horizon, u)
      ensures exists f :: IsNextFree(rules, u, f) && f - u <= longest
      ensures us != []
    {
      UnionsAreTheChains(rules, from, horizon, cap, us, u);
      var i :| 0 <= i < |us| && us[i].start <= u < us[i].end;
      assert IsNextFree(rules, u, us[i].end);
    }
    forall u, f | Chained(rules, from, horizon, u) && IsNextFree(rules, u, f) ensures f - u <= longest {
      var g :| IsNextFree(rules, u, g) && g - u <= longest;
      NextFreeIsUnique(rules, u, f, g);
    }
    if longest > 0 {
      var i :| 0 <= i < |us| && us[i].end - us[i].start == longest;
      UnionsAreTheChains(rules, from, horizon, cap, us, us[i].start);
      assert InUnion(us, us[i].start) && IsNextFree(rules, us[i].start, us[i].end);
    }
  }
}
