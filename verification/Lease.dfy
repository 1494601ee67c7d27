/**
  The collection execution lease of one source: the three SQL statements on its
  row, and the callbacks of one `withCollectionLease` call.

  Everything here is one call and one row.  The interleaving of many calls, lost
  answers, crashes and the freeing tick is in `LeaseRuns`.
*/
module Lease {
  import opened Wrappers

  /** A call's `crypto.randomUUID()`. */
  type Ref = nat

  datatype Timing = Timing(heartbeatMs: nat, heartbeatLossMs: nat, deadlineMs: nat, graceMs: nat)

  const LEASE_TIMING := Timing(60_000, 180_000, 780_000, 30_000)
  const LEASE_RELEASE_ATTEMPTS: nat := 3

  datatype AbortCode = DeadlineExceeded | LeaseLost

  // ----- the row and its statements -----

  datatype Row = Row(leaseRef: Option<Ref>, startedAt: Option<int>, heartbeatAt: Option<int>)

  const FREE := Row(None, None, None)

  datatype Statement = Claim(startedAt: int) | Heartbeat | Release

  /** The row after a statement bound to `ref` ran at D1 time `d1Now`. */
  function RowAfter(row: Row, ref: Ref, statement: Statement, d1Now: int): Row {
    match statement
    case Claim(startedAt) =>
      if row.leaseRef.None? then Row(Some(ref), Some(startedAt), Some(d1Now)) else row
    case Heartbeat =>
      if row.leaseRef == Some(ref) then row.(heartbeatAt := Some(d1Now)) else row
    case Release =>
      if row.leaseRef == Some(ref) then FREE else row
  }

  /** `meta.changes` of that statement. */
  function Changes(row: Row, ref: Ref, statement: Statement): nat {
    if statement.Claim? then (if row.leaseRef.None? then 1 else 0)
    else if row.leaseRef == Some(ref) then 1 else 0
  }

  /** The tick's `STALE_LEASE` condition, with its rule for builds that write no heartbeat. */
  predicate Stale(row: Row, d1Now: int, staleMs: nat, legacyStaleMs: nat) {
    row.leaseRef.Some? &&
    if row.heartbeatAt.Some? && (row.startedAt.None? || row.heartbeatAt.value >= row.startedAt.value)
    then row.heartbeatAt.value < d1Now - staleMs
    else row.startedAt.Some? && row.startedAt.value < d1Now - legacyStaleMs
  }

  // ----- one call -----

  datatype Phase =
    | Preparing              // the row's INSERT OR IGNORE is awaited
    | Claiming               // the claim is awaited
    | Refused                // the claim changed no row
    | Running                // the claim was granted and the action has not settled
    | Releasing(attempt: nat) // this attempt to clear the call's own reference is awaited
    | Finished(released: bool)

  datatype ForceStop = ForceStop(code: AbortCode, atMs: int)

  /** What one call remembers: its closure variables, its pending timers and its signal. */
  datatype Call = Call(
    phase: Phase,
    startedAt: int,
    claimSentMs: int,
    granted: bool,
    claimedAt: int,
    lastBeatMs: int,
    nextBeatAt: int,
    deadlineAt: Option<int>,
    aborted: Option<ForceStop>,  // the signal's reason, and when it was given
    forceAt: Option<int>,
    forceStops: seq<ForceStop>,
    returned: bool,
    crashed: bool)
  {
    predicate Settled() {
      granted && (phase.Releasing? || phase.Finished?)
    }

    predicate Beating() {
      phase.Running? && !crashed
    }

    /** Claimed, unsettled and not yet stopped by force. */
    predicate Live() {
      Beating() && forceStops == []
    }

    function Abort(code: AbortCode, now: int, timing: Timing): Call {
      if Settled() || aborted.Some? then this
      else this.(aborted := Some(ForceStop(code, now)), forceAt := Some(now + timing.graceMs))
    }

    function ClaimSent(now: int): Call {
      this.(phase := Claiming, claimSentMs := now)
    }

    function ClaimAnswered(changes: nat, now: int, timing: Timing): Call {
      if changes != 1 then this.(phase := Refused)
      else this.(phase := Running, granted := true, claimedAt := now, lastBeatMs := claimSentMs,
                 nextBeatAt := now + timing.heartbeatMs, deadlineAt := Some(now + timing.deadlineMs))
    }

    function BeatTimer(now: int, timing: Timing): Call {
      var c := this.(nextBeatAt := now + timing.heartbeatMs);
      if now - lastBeatMs >= timing.heartbeatLossMs then c.Abort(LeaseLost, now, timing) else c
    }

    function BeatAnswered(changes: nat, sentMs: int, now: int, timing: Timing): Call {
      if changes != 1 then Abort(LeaseLost, now, timing)
      else this.(lastBeatMs := if sentMs > lastBeatMs then sentMs else lastBeatMs)
    }

    function BeatFailed(now: int, timing: Timing): Call {
      if now - lastBeatMs >= timing.heartbeatLossMs then Abort(LeaseLost, now, timing) else this
    }

    function DeadlineTimer(now: int, timing: Timing): Call {
      this.(deadlineAt := None).Abort(DeadlineExceeded, now, timing)
    }

    function ForceTimer(now: int): Call
      requires aborted.Some?
    {
      this.(forceAt := None, forceStops := forceStops + [ForceStop(aborted.value.code, now)])
    }

    /** The action settled, or the claim failed: timers are cleared and the first release is sent. */
    function StartRelease(): Call {
      this.(phase := Releasing(1), deadlineAt := None, forceAt := None)
    }

    function ReleaseAnswered(): Call {
      this.(phase := Finished(true))
    }

    function ReleaseFailed(): Call
      requires phase.Releasing?
    {
      if phase.attempt < LEASE_RELEASE_ATTEMPTS then this.(phase := Releasing(phase.attempt + 1))
      else this.(phase := Finished(false))
    }

    /** `Promise.race` lost to the force stop, or the awaited release is over. */
    predicate MayReturn() {
      phase.Refused? || phase.Finished? || forceStops != []
    }
  }

  function NewCall(now: int): Call {
    Call(Preparing, now, now, false, now, now, now, None, None, None, [], false, false)
  }
}
