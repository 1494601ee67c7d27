/**
  `withCollectionLease` as the source keeps it: each call's variables, which its
  timer and answer callbacks update in place, and the row its statements change.
  `LeaseSystem` drives any number of calls through any order of events; it follows
  `LeaseRuns.Next` step by step, so what `LeaseRuns` proves of every run is proved
  here of the objects.
*/
module LeaseHolder {
  import opened Wrappers
  import opened Lease
  import opened LeaseRuns

  class CollectionCall {
    const timing: Timing
    const startedAt: int
    var phase: Phase
    var claimSentMs: int
    var granted: bool
    var claimedAt: int
    var lastBeatMs: int
    var nextBeatAt: int
    var deadlineAt: Option<int>
    var aborted: Option<ForceStop>
    var forceAt: Option<int>
    var forceStops: seq<ForceStop>
    var returned: bool
    var crashed: bool

    function View(): Call
      reads this
    {
      Call(phase, startedAt, claimSentMs, granted, claimedAt, lastBeatMs, nextBeatAt, deadlineAt, aborted, forceAt,
           forceStops, returned, crashed)
    }

    constructor (now: int, timing: Timing)
      ensures View() == NewCall(now) && this.timing == timing
    {
      this.timing, startedAt := timing, now;
      phase, claimSentMs, granted, claimedAt, lastBeatMs, nextBeatAt := Preparing, now, false, now, now, now;
      deadlineAt, aborted, forceAt, forceStops, returned, crashed := None, None, None, [], false, false;
    }

    method Abort(code: AbortCode, now: int)
      modifies this
      ensures View() == old(View()).Abort(code, now, timing)
      ensures Extends(old(View()), View())
    {
      var settled := granted && (phase.Releasing? || phase.Finished?);
      if settled || aborted.Some? {
        return;
      }
      aborted := Some(ForceStop(code, now));
      forceAt := Some(now + timing.graceMs);
    }

    method OnClaimSent(now: int)
      modifies this
      ensures View() == old(View()).ClaimSent(now)
    {
      phase, claimSentMs := Claiming, now;
    }

    method OnClaimAnswered(changes: nat, now: int)
      modifies this
      ensures View() == old(View()).ClaimAnswered(changes, now, timing)
    {
      if changes != 1 {
        phase := Refused;
        return;
      }
      phase, granted, claimedAt := Running, true, now;
      lastBeatMs := claimSentMs;
      nextBeatAt := now + timing.heartbeatMs;
      deadlineAt := Some(now + timing.deadlineMs);
    }

    /** The interval's tick; the caller sends the heartbeat it returns the send time of. */
    method OnBeatTimer(now: int) returns (sentMs: int)
      modifies this
      ensures View() == old(View()).BeatTimer(now, timing) && sentMs == now
      ensures Extends(old(View()), View())
    {
      nextBeatAt := now + timing.heartbeatMs;
      if now - lastBeatMs >= timing.heartbeatLossMs {
        Abort(LeaseLost, now);
      }
      sentMs := now;
    }

    method OnBeatAnswered(changes: nat, sentMs: int, now: int)
      modifies this
      ensures View() == old(View()).BeatAnswered(changes, sentMs, now, timing)
      ensures Extends(old(View()), View())
    {
      if changes != 1 {
        Abort(LeaseLost, now);
      } else if sentMs > lastBeatMs {
        lastBeatMs := sentMs;
      }
    }

    method OnBeatFailed(now: int)
      modifies this
      ensures View() == old(View()).BeatFailed(now, timing)
      ensures Extends(old(View()), View())
    {
      if now - lastBeatMs >= timing.heartbeatLossMs {
        Abort(LeaseLost, now);
      }
    }

    method OnDeadline(now: int)
      modifies this
      ensures View() == old(View()).DeadlineTimer(now, timing)
      ensures Extends(old(View()), View())
    {
      deadlineAt := None;
      Abort(DeadlineExceeded, now);
    }

    method OnForceTimer(now: int)
      requires aborted.Some?
      modifies this
      ensures View() == old(View()).ForceTimer(now)
    {
      forceAt := None;
      forceStops := forceStops + [ForceStop(aborted.value.code, now)];
    }

    method OnSettled()
      modifies this
      ensures View() == old(View()).StartRelease()
    {
      phase, deadlineAt, forceAt := Releasing(1), None, None;
    }

    method OnReleaseAnswered()
      modifies this
      ensures View() == old(View()).ReleaseAnswered()
    {
      phase := Finished(true);
    }

    /** The retry's answer is awaited, or the attempts are used up. */
    method OnReleaseFailed() returns (again: bool)
      requires phase.Releasing?
      modifies this
      ensures View() == old(View()).ReleaseFailed() && again == phase.Releasing?
    {
      again := phase.attempt < LEASE_RELEASE_ATTEMPTS;
      phase := if again then Releasing(phase.attempt + 1) else Finished(false);
    }

    method OnReturned()
      modifies this
      ensures View() == old(View()).(returned := true)
    {
      returned := true;
    }

    method OnCrashed()
      modifies this
      ensures View() == old(View()).(crashed := true)
    {
      crashed := true;
    }
  }

  /** How one statement ended for its sender. */
  datatype Delivery = Answered | FailedUnapplied | FailedApplied

  /** The row, and which of the release statements sent to it fail or lose their answer. */
  class LeaseTable {
    const unapplied: set<nat>
    const unanswered: set<nat>
    var row: Row
    var sent: nat

    constructor (unapplied: set<nat>, unanswered: set<nat>)
      ensures row == FREE && sent == 0 && this.unapplied == unapplied && this.unanswered == unanswered
    {
      this.unapplied, this.unanswered, row, sent := unapplied, unanswered, FREE, 0;
    }

    /** What becomes of the `k`th release statement. */
    predicate Fails(k: nat) {
      k in unapplied || k in unanswered
    }

    method Run(ref: Ref, statement: Statement, d1Now: int) returns (changes: nat)
      modifies this`row
      ensures row == RowAfter(old(row), ref, statement, d1Now) && changes == Changes(old(row), ref, statement)
    {
      changes := 0;
      match statement
      case Claim(startedAt) =>
        if row.leaseRef.None? {
          row, changes := Row(Some(ref), Some(startedAt), Some(d1Now)), 1;
        }
      case Heartbeat =>
        if row.leaseRef == Some(ref) {
          row, changes := row.(heartbeatAt := Some(d1Now)), 1;
        }
      case Release =>
        if row.leaseRef == Some(ref) {
          row, changes := FREE, 1;
        }
    }

    /**
      What everyone else does while `ref`'s call awaits: other calls, the tick and
      the operator, in any number.  None of them writes `ref`.
     */
    method Others(ref: Ref)
      modifies this`row
      ensures old(row).leaseRef != Some(ref) ==> row.leaseRef != Some(ref)
    {
      var left: Row := *;
      if left.leaseRef != Some(ref) {
        row := left;
      }
    }

    /** One awaited release, with others acting before and after it. */
    method SendRelease(ref: Ref, d1Now: int) returns (delivery: Delivery)
      modifies this
      ensures sent == old(sent) + 1
      ensures delivery.Answered? <==> !Fails(old(sent))
      ensures old(sent) !in unapplied || old(row).leaseRef != Some(ref) ==> row.leaseRef != Some(ref)
    {
      delivery := if sent in unapplied then FailedUnapplied else if sent in unanswered then FailedApplied else Answered;
      sent := sent + 1;
      Others(ref);
      if delivery != FailedUnapplied {
        var _ := Run(ref, Release, d1Now);
      }
      Others(ref);
    }

    /**
      True exactly when one of the three attempts is answered, and it is the last one
      sent; any attempt that ran, answered or not, leaves the reference gone.
     */
    method ReleaseOwnLease(ref: Ref, d1Now: int) returns (released: bool)
      modifies this
      ensures released <==> exists k :: old(sent) <= k < old(sent) + LEASE_RELEASE_ATTEMPTS && !Fails(k)
      ensures released ==> old(sent) < sent <= old(sent) + LEASE_RELEASE_ATTEMPTS && !Fails(sent - 1)
      ensures !released ==> sent == old(sent) + LEASE_RELEASE_ATTEMPTS
      ensures forall k :: old(sent) <= k < sent - (if released then 1 else 0) ==> Fails(k)
      ensures (exists k :: old(sent) <= k < sent && k !in unapplied) || old(row).leaseRef != Some(ref) ==>
                row.leaseRef != Some(ref)
    {
      for attempt := 0 to LEASE_RELEASE_ATTEMPTS
        invariant sent == old(sent) + attempt
        invariant forall k :: old(sent) <= k < sent ==> Fails(k)
        invariant (exists k :: old(sent) <= k < sent && k !in unapplied) || old(row).leaseRef != Some(ref) ==>
                    row.leaseRef != Some(ref)
      {
        var delivery := SendRelease(ref, d1Now);
        if delivery == Answered {
          return true;
        }
      }
      released := false;
    }
  }

  /** Any number of calls on one row, the statements under way between them, and the clock. */
  class LeaseSystem {
    const env: Env
    const table: LeaseTable
    var now: int
    var calls: map<Ref, CollectionCall>
    var wire: seq<Flight>
    var claims: map<Ref, nat>
    var freedByTick: set<Ref>
    var freedByOperator: set<Ref>

    ghost predicate Valid()
      reads this
    {
      && (forall r, s :: r in calls && s in calls && calls[r] == calls[s] ==> r == s)
      && (forall r :: r in calls ==> calls[r].timing == env.timing)
    }

    function Calls(): map<Ref, Call>
      reads this, calls.Values
    {
      map r | r in calls :: calls[r].View()
    }

    function View(): World
      reads this, table, calls.Values
    {
      World(now, table.row, Calls(), wire, claims, freedByTick, freedByOperator)
    }

    constructor (env: Env, table: LeaseTable, start: int)
      requires table.row == FREE
      ensures Valid() && View() == Start(start) && Inv(env, View()) && this.env == env && this.table == table && fresh(this) && calls == map[]
    {
      this.env, this.table, now, calls, wire, claims := env, table, start, map[], [], map[];
      freedByTick, freedByOperator := {}, {};
      new;
      assert Calls() == map[];
      StartOk(env, start);
    }

    /** Only `r`'s object was written. */
    twostate lemma OnlyOneChanged(r: Ref)
      requires old(Valid()) && calls == old(calls) && r in calls
      requires forall s :: s in calls && s != r ==> unchanged(calls[s])
      ensures Calls() == old(Calls())[r := calls[r].View()]
    {
    }

    /** A statement goes out. */
    method Post(ref: Ref, statement: Statement)
      modifies this`wire
      ensures View() == old(View()).(wire := old(wire) + [Flight(ref, statement, now, None, true)])
    {
      wire := wire + [Flight(ref, statement, now, None, true)];
      assert Calls() == old(Calls());
    }

    method Begin(r: Ref)
      requires Valid() && Enabled(env, View(), Event.Begin(r))
      modifies this
      ensures Valid() && View() == Next(env, old(View()), Event.Begin(r))
      ensures fresh(calls.Values - old(calls.Values))
    {
      var c := new CollectionCall(now, env.timing);
      calls := calls[r := c];
      assert Calls() == old(Calls())[r := NewCall(now)];
    }

    method SendClaim(r: Ref)
      requires Valid() && Enabled(env, View(), Event.SendClaim(r))
      modifies this, calls.Values
      ensures Valid() && View() == Next(env, old(View()), Event.SendClaim(r)) && calls == old(calls)
    {
      var c := calls[r];
      claims := claims[r := |wire|];
      c.OnClaimSent(now);
      OnlyOneChanged(r);
      Post(r, Claim(c.startedAt));
    }

    /** D1 runs a statement. */
    method Apply(i: nat)
      requires Valid() && Enabled(env, View(), Event.Apply(i))
      modifies this, table
      ensures Valid() && View() == Next(env, old(View()), Event.Apply(i)) && calls == old(calls)
    {
      var f := wire[i];
      var changes := table.Run(f.ref, f.statement, now + env.skewMs);
      wire := wire[i := f.(result := Some(changes))];
      assert Calls() == old(Calls());
    }

    method Answer(i: nat)
      requires Valid() && Enabled(env, View(), Event.Answer(i))
      modifies this, calls.Values
      ensures Valid() && View() == Next(env, old(View()), Event.Answer(i)) && calls == old(calls)
    {
      var f := wire[i];
      var c := calls[f.ref];
      wire := wire[i := f.(open := false)];
      match f.statement {
        case Claim(_) => c.OnClaimAnswered(f.result.value, now);
        case Heartbeat => c.OnBeatAnswered(f.result.value, f.sentMs, now);
        case Release => c.OnReleaseAnswered();
      }
      OnlyOneChanged(f.ref);
    }

    /** The failed claim may have been written, so the own reference is released. */
    method FailClaim(i: nat)
      requires Valid() && Enabled(env, View(), Event.Fail(i)) && wire[i].statement.Claim?
      modifies this, calls.Values
      ensures Valid() && View() == Next(env, old(View()), Event.Fail(i)) && calls == old(calls)
    {
      var r := wire[i].ref;
      var c := calls[r];
      wire := wire[i := wire[i].(open := false)];
      c.OnSettled();
      OnlyOneChanged(r);
      Post(r, Release);
    }

    method FailHeartbeat(i: nat)
      requires Valid() && Enabled(env, View(), Event.Fail(i)) && wire[i].statement.Heartbeat?
      modifies this, calls.Values
      ensures Valid() && View() == Next(env, old(View()), Event.Fail(i)) && calls == old(calls)
    {
      var r := wire[i].ref;
      var c := calls[r];
      wire := wire[i := wire[i].(open := false)];
      c.OnBeatFailed(now);
      OnlyOneChanged(r);
    }

    /** The next attempt goes out, if one is left. */
    method FailRelease(i: nat)
      requires Valid() && Enabled(env, View(), Event.Fail(i)) && wire[i].statement.Release?
      modifies this, calls.Values
      ensures Valid() && View() == Next(env, old(View()), Event.Fail(i)) && calls == old(calls)
    {
      var r := wire[i].ref;
      var c := calls[r];
      wire := wire[i := wire[i].(open := false)];
      if !c.phase.Releasing? {
        OnlyOneChanged(r);
        return;
      }
      var again := c.OnReleaseFailed();
      OnlyOneChanged(r);
      if again {
        Post(r, Release);
      }
    }

    /** A timer of one call fires. */
    method Fire(e: Event)
      requires e.BeatTimer? || e.DeadlineTimer? || e.ForceTimer?
      requires Valid() && Enabled(env, View(), e)
      modifies this, calls.Values
      ensures Valid() && View() == Next(env, old(View()), e) && calls == old(calls)
    {
      var c := calls[e.ref];
      if e.BeatTimer? {
        var _ := c.OnBeatTimer(now);
        OnlyOneChanged(e.ref);
        Post(e.ref, Heartbeat);
      } else if e.DeadlineTimer? {
        c.OnDeadline(now);
        OnlyOneChanged(e.ref);
      } else {
        c.OnForceTimer(now);
        OnlyOneChanged(e.ref);
      }
    }

    /** The action settled: its timers are cleared and the release goes out. */
    method Settle(r: Ref)
      requires Valid() && Enabled(env, View(), Event.Settle(r))
      modifies this, calls.Values
      ensures Valid() && View() == Next(env, old(View()), Event.Settle(r)) && calls == old(calls)
    {
      var c := calls[r];
      c.OnSettled();
      OnlyOneChanged(r);
      Post(r, Release);
    }

    /** The caller gets the outcome, or the isolate is gone. */
    method End(e: Event)
      requires e.Return? || e.Crash?
      requires Valid() && Enabled(env, View(), e)
      modifies this, calls.Values
      ensures Valid() && View() == Next(env, old(View()), e) && calls == old(calls)
    {
      var c := calls[e.ref];
      if e.Return? {
        c.OnReturned();
        OnlyOneChanged(e.ref);
      } else {
        c.OnCrashed();
        OnlyOneChanged(e.ref);
      }
    }

    /** The tick or the operator clears the row. */
    method Free(byTick: bool)
      requires Valid() && Enabled(env, View(), if byTick then Event.Tick else Event.OperatorRelease)
      modifies this, table
      ensures Valid() && calls == old(calls)
      ensures View() == Next(env, old(View()), if byTick then Event.Tick else Event.OperatorRelease)
    {
      var r := table.row.leaseRef.value;
      if byTick {
        freedByTick := freedByTick + {r};
      } else {
        freedByOperator := freedByOperator + {r};
      }
      table.row := FREE;
      assert Calls() == old(Calls());
    }

    /** One event: the objects follow the step of the value model. */
    method Step(e: Event)
      requires Valid() && Enabled(env, View(), e)
      modifies this, table, calls.Values
      ensures Valid() && View() == Next(env, old(View()), e)
      ensures fresh(calls.Values - old(calls.Values))
    {
      match e
      case Begin(r) => Begin(r);
      case SendClaim(r) => SendClaim(r);
      case Apply(i) => Apply(i);
      case Answer(i) => Answer(i);
      case Fail(i) =>
        match wire[i].statement {
          case Claim(_) => FailClaim(i);
          case Heartbeat => FailHeartbeat(i);
          case Release => FailRelease(i);
        }
      case BeatTimer(_) => Fire(e);
      case DeadlineTimer(_) => Fire(e);
      case ForceTimer(_) => Fire(e);
      case Settle(r) => Settle(r);
      case Return(_) => End(e);
      case Crash(_) => End(e);
      case Tick => Free(true);
      case OperatorRelease => Free(false);
      case Advance(t) =>
        now := t;
        assert Calls() == old(Calls());
    }

    /** Claimed, unsettled, not stopped by force, and not freed by the operator. */
    predicate LiveHolder(r: Ref)
      reads this, calls.Values
    {
      r in calls && calls[r].View().Live() && r !in freedByOperator
    }

    /** The events of `run`, one after the other. */
    method Follow(run: seq<Event>)
      requires Valid() && Sound(env) && Inv(env, View()) && After(env, View(), run).Some?
      modifies this, table, calls.Values
      ensures Valid() && Inv(env, View()) && After(env, old(View()), run) == Some(View())
    {
      for k := 0 to |run|
        invariant Valid() && Inv(env, View())
        invariant After(env, old(View()), run) == After(env, View(), run[k..])
        invariant fresh(calls.Values - old(calls.Values))
      {
        InvKept(env, View(), run[k]);
        assert run[k..][0] == run[k] && run[k..][1..] == run[k + 1..];
        Step(run[k]);
      }
    }

    /**
      Any order of events the surroundings allow: at most one call that the operator
      did not free is live, it holds the row, nobody the tick freed is live, no call
      takes back its abort, its force stop or its end, and a call whose heartbeat found
      the lease gone has aborted, and is over once its grace period has passed.
     */
    method Run(run: seq<Event>)
      requires Valid() && Sound(env) && Inv(env, View()) && After(env, View(), run).Some?
      modifies this, table, calls.Values
      ensures Valid() && Inv(env, View()) && After(env, old(View()), run) == Some(View())
      ensures AtMostOneHolder(View()) && FreedHaveStopped(View())
      ensures HistoryExtends(old(View()), View()) && LossesHeeded(env, old(View()), run, View())
    {
      ghost var before := View();
      Follow(run);
      InvExcludes(env, View());
      RunExtends(env, before, run);
      RunHeedsLosses(env, before, run);
    }
  }
}
