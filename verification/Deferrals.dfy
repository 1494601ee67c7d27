/**
  Which windows the joined deferrals cover: those that hold at the beginning, are dated, or start
  within the horizon, and nothing else exactly when none of these is taken over by another window.
*/
module Deferrals {
  import opened Schedule
  import opened Wrappers
  import opened Zones

  // ----- the windows that count -----

  /** A window that holds at `from`, is dated, or starts within the horizon. */
  ghost predicate CountedWindow(r: Rule, from: int, horizon: int, s: int, e: int) {
    IsWindow(r, s, e) && e > from && s < e && (s <= from || r.pattern.Once? || RuleStart(r, from, horizon, s))
  }

  ghost predicate CountedEnd(rules: seq<Rule>, from: int, horizon: int, e: int) {
    exists i, s :: 0 <= i < |rules| && CountedWindow(rules[i], from, horizon, s, e)
  }

  /** From `from` on, an instant of a window that counts. */
  ghost predicate Counted(rules: seq<Rule>, from: int, horizon: int, u: int) {
    from <= u && exists i, s, e :: 0 <= i < |rules| && CountedWindow(rules[i], from, horizon, s, e) && s <= u < e
  }

  ghost predicate StaysCounted(rules: seq<Rule>, from: int, horizon: int, t: int) {
    CountedEnd(rules, from, horizon, t) || Enumerated(rules, from, horizon, t) ==>
      (Blocked(rules, t) ==> Counted(rules, from, horizon, t))
  }

  /**
    Where a window that counts ends, and at every enumerated start, collection is free or a window
    that counts holds: no other window takes over.
  */
  ghost predicate NothingTakesOver(rules: seq<Rule>, from: int, horizon: int) {
    forall t :: StaysCounted(rules, from, horizon, t)
  }

  /** The unions hold exactly the instants of the windows that count. */
  ghost predicate CoversTheCounted(rules: seq<Rule>, from: int, horizon: int, us: seq<DeferralUnion>) {
    forall u :: InUnion(us, u) <==> Counted(rules, from, horizon, u)
  }

  lemma EnumeratedIsNotBefore(rules: seq<Rule>, from: int, horizon: int, s: int)
    requires Enumerated(rules, from, horizon, s)
    ensures s >= from
  {
  }

  lemma CountedIsBlocked(rules: seq<Rule>, from: int, horizon: int, u: int)
    requires Counted(rules, from, horizon, u)
    ensures Blocked(rules, u)
  {
    var i, s, e :| 0 <= i < |rules| && CountedWindow(rules[i], from, horizon, s, e) && s <= u < e;
    assert Covers(rules[i], u);
  }

  /** Windows that count are covered, whatever else is. */
  lemma CountedIsJoined(rules: seq<Rule>, from: int, horizon: int, cap: int, us: seq<DeferralUnion>, u: int)
    requires IsJoined(rules, from, horizon, cap, us) && cap >= 0 && WithinCap(us, cap)
    requires Counted(rules, from, horizon, u)
    ensures InUnion(us, u)
  {
    var i, s, e :| 0 <= i < |rules| && CountedWindow(rules[i], from, horizon, s, e) && s <= u < e;
    WindowsAreJoined(rules, from, horizon, cap, us, i, s, e, u);
  }

  /** Without a takeover, what is blocked without a gap since an enumerated start is counted. */
  lemma {:induction false} ChainIsCounted(rules: seq<Rule>, from: int, horizon: int, s: int, u: int)
    requires NothingTakesOver(rules, from, horizon) && Enumerated(rules, from, horizon, s)
    requires s <= u && BlockedThroughout(rules, s, u + 1)
    ensures Counted(rules, from, horizon, u)
    decreases u - s
  {
    EnumeratedIsNotBefore(rules, from, horizon, s);
    assert StaysCounted(rules, from, horizon, u);
    assert Blocked(rules, u);
    if s < u {
      ChainIsCounted(rules, from, horizon, s, u - 1);
      var i, b, e :| 0 <= i < |rules| && CountedWindow(rules[i], from, horizon, b, e) && b <= u - 1 < e;
      if u == e {
        assert CountedEnd(rules, from, horizon, u);
      } else {
        assert CountedWindow(rules[i], from, horizon, b, e) && b <= u < e;
      }
    }
  }

  /** A blocked instant right after a chained one is chained too. */
  lemma ChainGrows(rules: seq<Rule>, from: int, horizon: int, t: int)
    requires Chained(rules, from, horizon, t - 1) && Blocked(rules, t)
    ensures Chained(rules, from, horizon, t)
  {
    var b :| Enumerated(rules, from, horizon, b) && b <= t - 1 && BlockedThroughout(rules, b, t - 1 + 1);
    assert BlockedThroughout(rules, b, t + 1);
  }

  lemma BlockedStartIsChained(rules: seq<Rule>, from: int, horizon: int, t: int)
    requires Enumerated(rules, from, horizon, t) && Blocked(rules, t)
    ensures Chained(rules, from, horizon, t)
  {
    assert BlockedThroughout(rules, t, t + 1);
  }

  lemma CountedBeforeItsEnd(rules: seq<Rule>, from: int, horizon: int, e: int)
    requires CountedEnd(rules, from, horizon, e)
    ensures Counted(rules, from, horizon, e - 1)
  {
    var i, s :| 0 <= i < |rules| && CountedWindow(rules[i], from, horizon, s, e);
    assert CountedWindow(rules[i], from, horizon, s, e) && s <= e - 1 < e;
  }

  /** If the unions hold nothing but counted windows, none of these is taken over. */
  lemma CoveringStaysCounted(rules: seq<Rule>, from: int, horizon: int, cap: int, us: seq<DeferralUnion>, t: int)
    requires IsJoined(rules, from, horizon, cap, us) && cap >= 0 && WithinCap(us, cap)
    requires CoversTheCounted(rules, from, horizon, us)
    ensures StaysCounted(rules, from, horizon, t)
  {
    UnionsAreTheChains(rules, from, horizon, cap, us, t);
    UnionsAreTheChains(rules, from, horizon, cap, us, t - 1);
    if Blocked(rules, t) && Enumerated(rules, from, horizon, t) {
      BlockedStartIsChained(rules, from, horizon, t);
    } else if Blocked(rules, t) && CountedEnd(rules, from, horizon, t) {
      CountedBeforeItsEnd(rules, from, horizon, t);
      ChainGrows(rules, from, horizon, t);
    }
  }

  /**
    Within the cap the unions cover exactly the windows that hold at `from`, are dated, or start within
    the horizon, if and only if no other window takes over where one of them ends or a start is enumerated.
  */
  lemma UnionsAreCountedIff(rules: seq<Rule>, from: int, horizon: int, cap: int, us: seq<DeferralUnion>)
    requires IsJoined(rules, from, horizon, cap, us) && cap >= 0 && WithinCap(us, cap)
    ensures CoversTheCounted(rules, from, horizon, us) <==> NothingTakesOver(rules, from, horizon)
  {
    if CoversTheCounted(rules, from, horizon, us) {
      forall t ensures StaysCounted(rules, from, horizon, t) {
        CoveringStaysCounted(rules, from, horizon, cap, us, t);
      }
    }
    if NothingTakesOver(rules, from, horizon) {
      forall u ensures InUnion(us, u) <==> Counted(rules, from, horizon, u) {
        UnionsAreTheChains(rules, from, horizon, cap, us, u);
        if Chained(rules, from, horizon, u) {
          var s :| Enumerated(rules, from, horizon, s) && s <= u && BlockedThroughout(rules, s, u + 1);
          ChainIsCounted(rules, from, horizon, s, u);
        } else if Counted(rules, from, horizon, u) {
          CountedIsJoined(rules, from, horizon, cap, us, u);
        }
      }
    }
  }

  // ----- a window beyond the horizon that takes over -----

  const HOUR := 60 * MINUTE
  const EVERY_DAY := [0, 1, 2, 3, 4, 5, 6]

  function Utc(): Zone {
    FixedZone(0)
  }

  function DailyRule(start: int, end: int): Rule {
    Rule(Utc(), Weekly(EVERY_DAY, start, end), true, Collection)
  }

  /** Noon to six, and six to eight in the evening, every day. */
  function TwoRules(): seq<Rule> {
    [DailyRule(720, 1080), DailyRule(1080, 1200)]
  }

  lemma UtcWall(d: int, time: int)
    ensures DayWall(Utc(), d, time) == Some(d * DAY + time * MINUTE)
  {
    var target := d * DAY + time * MINUTE;
    assert target == (1440 * d + time) * MINUTE;
    assert IsEarliest(Utc(), target, Some(target));
    EarliestIsWall(Utc(), target, Some(target));
  }

  lemma EveryDayStarts(start: int, end: int, d: int)
    ensures WindowStart(DailyRule(start, end), d) == Some(d * DAY + start * MINUTE)
    ensures start <= end ==> WindowEndOf(DailyRule(start, end), d) == Some(d * DAY + end * MINUTE)
  {
    assert 0 <= Weekday(d) < 7;
    assert EVERY_DAY[Weekday(d)] == Weekday(d);
    UtcWall(d, start);
    UtcWall(d, end);
  }

  lemma DailyWindow(start: int, end: int, s: int, e: int) returns (d: int)
    requires start <= end && IsWindow(DailyRule(start, end), s, e)
    ensures s == d * DAY + start * MINUTE && e == d * DAY + end * MINUTE
  {
    d :| WindowStart(DailyRule(start, end), d) == Some(s) && WindowEndOf(DailyRule(start, end), d) == Some(e);
    EveryDayStarts(start, end, d);
  }

  lemma EveningIsNotCounted()
    ensures !Counted(TwoRules(), 0, 13 * HOUR, 19 * HOUR)
  {
    forall i, s, e | 0 <= i < 2 && CountedWindow(TwoRules()[i], 0, 13 * HOUR, s, e) ensures !(s <= 19 * HOUR < e) {
      if i == 0 {
        var d := DailyWindow(720, 1080, s, e);
      } else {
        var d := DailyWindow(1080, 1200, s, e);
      }
    }
  }

  lemma AfternoonIsBlocked(u: int)
    requires 12 * HOUR <= u < 20 * HOUR
    ensures Blocked(TwoRules(), u)
  {
    EveryDayStarts(720, 1080, 0);
    EveryDayStarts(1080, 1200, 0);
    if u < 18 * HOUR {
      assert IsWindow(TwoRules()[0], 12 * HOUR, 18 * HOUR);
      assert Covers(TwoRules()[0], u);
    } else {
      assert IsWindow(TwoRules()[1], 18 * HOUR, 20 * HOUR);
      assert Covers(TwoRules()[1], u);
    }
  }

  lemma NoonIsEnumerated()
    ensures Enumerated(TwoRules(), 0, 13 * HOUR, 12 * HOUR)
  {
    EveryDayStarts(720, 1080, 0);
    assert RuleStart(TwoRules()[0], 0, 13 * HOUR, 12 * HOUR);
  }

  /** What is blocked without a gap since an enumerated start is in a union, if it lies within the cap. */
  lemma StretchIsJoined(rules: seq<Rule>, from: int, horizon: int, cap: int, us: seq<DeferralUnion>, s: int, u: int)
    requires IsJoined(rules, from, horizon, cap, us) && cap >= 0
    requires Enumerated(rules, from, horizon, s) && s <= u <= from + cap && BlockedThroughout(rules, s, u + 1)
    ensures InUnion(us, u)
  {
    assert Blocked(rules, s);
    var i :| 0 <= i < |us| && us[i].start <= s < us[i].end;
    EnumeratedIsNotBefore(rules, from, horizon, us[i].start);
  }

  /** Seven in the evening is in a union, though the window that holds then starts past the horizon. */
  lemma WindowPastTheHorizonIsJoined(cap: int, us: seq<DeferralUnion>)
    requires IsJoined(TwoRules(), 0, 13 * HOUR, cap, us) && cap >= 20 * HOUR
    ensures ValidRules(TwoRules())
    ensures InUnion(us, 19 * HOUR) && !Counted(TwoRules(), 0, 13 * HOUR, 19 * HOUR)
  {
    FixedZoneIsValid(0);
    EveningIsNotCounted();
    NoonIsEnumerated();
    forall u | 12 * HOUR <= u < 19 * HOUR + 1 ensures Blocked(TwoRules(), u) {
      AfternoonIsBlocked(u);
    }
    StretchIsJoined(TwoRules(), 0, 13 * HOUR, cap, us, 12 * HOUR, 19 * HOUR);
  }
}
