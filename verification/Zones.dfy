/**
  Wall clocks: instants in milliseconds, a zone as its UTC offset, and the instant
  a wall time names.
*/
module Zones {
  import opened Wrappers

  const MINUTE := 60_000
  const DAY := 86_400_000

  /** `offset(t)` is local time minus UTC at instant `t`. */
  datatype Zone = Zone(offset: int -> int)

  /** How long after a change of offset no other follows. */
  const CHANGE_GAP := 15 * DAY

  /** A whole-minute offset of less than a day, in force for the whole minute. */
  predicate WholeMinutes(z: Zone, t: int) {
    -DAY < z.offset(t) < DAY && z.offset(t) % MINUTE == 0 && z.offset(t) == z.offset(t - t % MINUTE)
  }

  /** Once the offset changed between `a` and `b`, it stays for the rest of the gap. */
  predicate ChangesOnce(z: Zone, a: int, b: int, c: int) {
    a <= b <= c <= a + CHANGE_GAP && z.offset(a) != z.offset(b) ==> z.offset(c) == z.offset(b)
  }

  predicate DatesAdvance(z: Zone, a: int, b: int) {
    a <= b ==> LocalDate(z, a) <= LocalDate(z, b)
  }

  /**
    What the three scheduling zones have in common: whole-minute offsets of less
    than a day that change on whole minutes, at most once in any fifteen days, and
    never back across a local midnight.
   */
  ghost predicate ValidZone(z: Zone) {
    && (forall t :: WholeMinutes(z, t))
    && (forall a, b, c :: ChangesOnce(z, a, b, c))
    && (forall a, b :: DatesAdvance(z, a, b))
  }

  /** The local date and minute of an instant, written as the UTC instant of the same reading. */
  function LocalMinute(z: Zone, t: int): int {
    var local := t + z.offset(t);
    local - local % MINUTE
  }

  /** The local date of an instant, as the UTC midnight of that date. */
  function LocalDate(z: Zone, t: int): int {
    var local := t + z.offset(t);
    local - local % DAY
  }

  predicate Reads(z: Zone, t: int, target: int) {
    LocalMinute(z, t) == target
  }

  /** `r` is the earliest instant whose clock reads `target`, or none reads it. */
  ghost predicate IsEarliest(z: Zone, target: int, r: Option<int>) {
    && (r.Some? ==> Reads(z, r.value, target))
    && forall t :: Reads(z, t, target) ==> r.Some? && r.value <= t
  }

  /** The instant a wall reading names: its earliest instant, or none when it is skipped. */
  ghost function Wall(z: Zone, target: int): Option<int> {
    if t :| IsEarliest(z, target, Some(t)) then Some(t) else None
  }

  lemma EarliestIsWall(z: Zone, target: int, r: Option<int>)
    requires IsEarliest(z, target, r)
    ensures r == Wall(z, target)
  {
    if r.Some? {
      assert IsEarliest(z, target, Some(r.value));
    }
  }

  /** Every instant that reads `target` has the offset in force a day before it, at it, or a day after it. */
  lemma OffsetIsSampled(z: Zone, target: int, t: int)
    requires ValidZone(z) && target % MINUTE == 0 && Reads(z, t, target)
    ensures z.offset(t) in Samples(z, target)
    ensures Reads(z, target - z.offset(t), target) && target - z.offset(t) <= t
  {
    var m := t - t % MINUTE;
    assert WholeMinutes(z, t) && WholeMinutes(z, target) && m + z.offset(t) == target;
    assert ChangesOnce(z, target - DAY, m, target + DAY);
  }

  function Samples(z: Zone, target: int): set<int> {
    {z.offset(target - DAY), z.offset(target), z.offset(target + DAY)}
  }

  /** On a whole minute the reading minus the instant is the offset. */
  lemma ReadingGivesOffset(z: Zone, t: int)
    requires ValidZone(z) && t % MINUTE == 0
    ensures LocalMinute(z, t) - t == z.offset(t)
  {
    assert WholeMinutes(z, t);
  }

  method SampledOffsets(target: int, zone: Zone) returns (offsets: set<int>)
    requires ValidZone(zone) && target % MINUTE == 0
    ensures offsets == Samples(zone, target)
  {
    offsets := {};
    for delta := -1 to 2
      invariant delta >= 0 ==> zone.offset(target - DAY) in offsets
      invariant delta >= 1 ==> zone.offset(target) in offsets
      invariant delta >= 2 ==> zone.offset(target + DAY) in offsets
      invariant offsets <= Samples(zone, target)
    {
      var t := target + delta * DAY;
      ReadingGivesOffset(zone, t);
      offsets := offsets + {LocalMinute(zone, t) - t};
    }
  }

  lemma TargetIsOnMinute(date: int, time: int)
    requires date % DAY == 0
    ensures (date + time * MINUTE) % MINUTE == 0
  {
    var d := date / DAY;
    assert date + time * MINUTE == (1440 * d + time) * MINUTE;
  }

  /** The instant at which `zone` reads `time` minutes into `date`; `None` for a reading DST skips. */
  method At(date: int, time: int, zone: Zone) returns (r: Option<int>)
    requires ValidZone(zone) && date % DAY == 0
    ensures r == Wall(zone, date + time * MINUTE) && IsEarliest(zone, date + time * MINUTE, r)
  {
    var target := date + time * MINUTE;
    TargetIsOnMinute(date, time);
    var offsets := SampledOffsets(target, zone);
    r := None;
    var rest := offsets;
    while rest != {}
      invariant rest <= offsets
      invariant r.Some? ==> Reads(zone, r.value, target)
      invariant forall o :: o in offsets && o !in rest && Reads(zone, target - o, target) ==>
                              r.Some? && r.value <= target - o
    {
      var o := Pick(rest);
      rest := rest - {o};
      var t := target - o;
      if Reads(zone, t, target) && (r.None? || t < r.value) {
        r := Some(t);
      }
    }
    LeastSampleIsWall(zone, target, r);
  }

  lemma LeastSampleIsWall(z: Zone, target: int, r: Option<int>)
    requires ValidZone(z) && target % MINUTE == 0
    requires r.Some? ==> Reads(z, r.value, target)
    requires forall o :: o in Samples(z, target) && Reads(z, target - o, target) ==> r.Some? && r.value <= target - o
    ensures IsEarliest(z, target, r) && r == Wall(z, target)
  {
    forall t | Reads(z, t, target) ensures r.Some? && r.value <= t {
      OffsetIsSampled(z, target, t);
    }
    EarliestIsWall(z, target, r);
  }

  /** A reading that occurs at all names its earliest instant. */
  lemma WallIsEarliest(z: Zone, target: int)
    requires ValidZone(z) && target % MINUTE == 0
    ensures IsEarliest(z, target, Wall(z, target))
  {
    var a, b, c := target - z.offset(target - DAY), target - z.offset(target), target - z.offset(target + DAY);
    var r := Sooner(z, target, a, Sooner(z, target, b, Sooner(z, target, c, None)));
    LeastSampleIsWall(z, target, r);
  }

  function Sooner(z: Zone, target: int, t: int, r: Option<int>): Option<int> {
    if Reads(z, t, target) && (r.None? || t < r.value) then Some(t) else r
  }

  /** The instant of a wall time on day `d` of the epoch. */
  ghost function DayWall(z: Zone, d: int, time: int): Option<int> {
    Wall(z, d * DAY + time * MINUTE)
  }

  /** The local date of an instant, as a day of the epoch. */
  function LocalDay(z: Zone, t: int): int {
    LocalDate(z, t) / DAY
  }

  /** The instant of a wall time lies on its own local date. */
  lemma DayOfWall(z: Zone, d: int, time: int)
    requires ValidZone(z) && 0 <= time < 1440
    ensures DayWall(z, d, time).Some? ==> LocalDay(z, DayWall(z, d, time).value) == d
  {
    WallIsEarliest(z, d * DAY + time * MINUTE);
    if DayWall(z, d, time).Some? {
      var t := DayWall(z, d, time).value;
      DayBounds(t + z.offset(t), d);
    }
  }

  lemma DayBounds(local: int, d: int)
    requires d * DAY <= local < d * DAY + DAY
    ensures local - local % DAY == d * DAY && (local - local % DAY) / DAY == d
  {
    assert local / DAY == d;
  }

  lemma DaysAdvance(z: Zone, a: int, b: int)
    requires ValidZone(z) && a <= b
    ensures LocalDay(z, a) <= LocalDay(z, b)
  {
    assert DatesAdvance(z, a, b);
  }

  /** A reading is skipped only when the offset changes between the day before and the day after it. */
  lemma SkippedNeedsChange(z: Zone, target: int)
    requires ValidZone(z) && target % MINUTE == 0
    ensures Wall(z, target).None? ==> z.offset(target - DAY) != z.offset(target + DAY)
  {
    WallIsEarliest(z, target);
    var t := target - z.offset(target - DAY);
    assert WholeMinutes(z, target - DAY) && WholeMinutes(z, t) && ChangesOnce(z, target - DAY, t, target + DAY);
    assert Wall(z, target).None? ==> !Reads(z, t, target);
  }

  /** The same wall time is never skipped on two dates a week apart. */
  lemma NotSkippedTwice(z: Zone, d: int, time: int)
    requires ValidZone(z)
    ensures DayWall(z, d, time).Some? || DayWall(z, d + 7, time).Some?
  {
    var target := d * DAY + time * MINUTE;
    SkippedNeedsChange(z, target);
    SkippedNeedsChange(z, target + 7 * DAY);
    assert ChangesOnce(z, target - DAY, target + DAY, target + 6 * DAY);
    assert ChangesOnce(z, target - DAY, target + DAY, target + 8 * DAY);
  }

  /** A later reading never names an earlier instant, although a clock set back reads some minutes twice. */
  lemma WallIsMonotone(z: Zone, a: int, b: int)
    requires ValidZone(z) && a % MINUTE == 0 && b % MINUTE == 0 && a < b
    ensures Wall(z, a).Some? && Wall(z, b).Some? ==> Wall(z, a).value < Wall(z, b).value
  {
    WallIsEarliest(z, a);
    WallIsEarliest(z, b);
    if Wall(z, a).Some? && Wall(z, b).Some? && Wall(z, a).value >= Wall(z, b).value {
      EarlierReading(z, a, b, Wall(z, a).value, Wall(z, b).value);
    }
  }

  /** A reading lasts for the minute that starts it. */
  lemma ReadsWithinMinute(z: Zone, t: int, target: int)
    requires target % MINUTE == 0 && Reads(z, t, target)
    ensures target - z.offset(t) <= t < target - z.offset(t) + MINUTE
  {
  }

  lemma MinutesApart(a: int, b: int)
    requires a % MINUTE == 0 && b % MINUTE == 0 && a < b
    ensures a + MINUTE <= b
  {
    assert b == (b / MINUTE) * MINUTE && a == (a / MINUTE) * MINUTE;
  }

  /** If `a` were first read after `b`, the clock was set back between, so it read `a` before `b` too. */
  lemma EarlierReading(z: Zone, a: int, b: int, ta: int, tb: int)
    requires ValidZone(z) && a % MINUTE == 0 && b % MINUTE == 0 && a < b && tb <= ta
    requires Reads(z, ta, a) && Reads(z, tb, b)
    ensures Reads(z, a - z.offset(tb), a) && a - z.offset(tb) < ta
  {
    ReadsWithinMinute(z, ta, a);
    ReadsWithinMinute(z, tb, b);
    MinutesApart(a, b);
    var t := a - z.offset(tb);
    assert WholeMinutes(z, ta) && WholeMinutes(z, tb);
    assert ChangesOnce(z, t, tb, ta);
    assert z.offset(t) == z.offset(tb);
  }

  function FixedZone(offset: int): Zone {
    Zone(t => offset)
  }

  /** A zone without daylight saving is valid: Tokyo at nine hours, UTC at none. */
  lemma FixedZoneIsValid(offset: int)
    requires -DAY < offset < DAY && offset % MINUTE == 0
    ensures ValidZone(FixedZone(offset))
  {
  }

  /** One change of offset at `change`. */
  function ChangeZone(change: int, before: int, afterwards: int): Zone {
    Zone(t => if t < change then before else afterwards)
  }

  lemma DatesAreMonotone(x: int, y: int)
    requires x <= y
    ensures x - x % DAY <= y - y % DAY
  {
  }

  lemma MinuteOfChange(t: int, change: int)
    requires change % MINUTE == 0
    ensures t < change <==> t - t % MINUTE < change
  {
  }

  lemma ChangeZoneDatesAdvance(change: int, before: int, afterwards: int, a: int, b: int)
    requires var z := ChangeZone(change, before, afterwards); LocalDate(z, change - 1) <= LocalDate(z, change)
    ensures DatesAdvance(ChangeZone(change, before, afterwards), a, b)
  {
    if a < change <= b {
      DatesAreMonotone(a + before, change - 1 + before);
      DatesAreMonotone(change + afterwards, b + afterwards);
    } else if a <= b {
      DatesAreMonotone(a + (if a < change then before else afterwards), b + (if b < change then before else afterwards));
    }
  }

  /** A change on a whole minute keeps a zone valid exactly when the local date does not go back at it. */
  lemma ChangeZoneIsValidIff(change: int, before: int, afterwards: int)
    requires -DAY < before < DAY && before % MINUTE == 0 && -DAY < afterwards < DAY && afterwards % MINUTE == 0
    requires change % MINUTE == 0
    ensures var z := ChangeZone(change, before, afterwards);
      ValidZone(z) <==> LocalDate(z, change - 1) <= LocalDate(z, change)
  {
    var z := ChangeZone(change, before, afterwards);
    if LocalDate(z, change - 1) <= LocalDate(z, change) {
      forall a, b ensures DatesAdvance(z, a, b) {
        ChangeZoneDatesAdvance(change, before, afterwards, a, b);
      }
      forall t ensures WholeMinutes(z, t) {
        MinuteOfChange(t, change);
      }
    } else {
      assert !DatesAdvance(z, change - 1, change);
    }
  }
}
