/**
  Every run of the lease protocol on one source's row: many calls, statements
  that apply late, answers that never come, crashes, the freeing tick and the
  operator's release, under one global clock.

  The environment is assumed to be this and no more: references are fresh; D1's
  clock differs from the isolates' by a constant; a timer fires at most `lagMs`
  after it is due; a statement that failed does not apply afterwards; a granted
  claim is answered within `claimLatencyMs` of the call's start.
*/
module LeaseRuns {
  import opened Wrappers
  import opened Lease

  datatype Env = Env(timing: Timing, skewMs: int, lagMs: nat, claimLatencyMs: nat, staleMs: nat, legacyStaleMs: nat)

  /** A statement on its way: `result` once D1 ran it, `open` until its answer or failure reached the call. */
  datatype Flight = Flight(ref: Ref, statement: Statement, sentMs: int, result: Option<nat>, open: bool)

  /** `claims` records where on the wire each call's claim went; the freed sets are history. */
  datatype World = World(now: int, row: Row, calls: map<Ref, Call>, wire: seq<Flight>, claims: map<Ref, nat>,
                         freedByTick: set<Ref>, freedByOperator: set<Ref>)

  datatype Event =
    | Begin(ref: Ref)
    | SendClaim(ref: Ref)
    | Apply(id: nat)
    | Answer(id: nat)
    | Fail(id: nat)
    | BeatTimer(ref: Ref)
    | DeadlineTimer(ref: Ref)
    | ForceTimer(ref: Ref)
    | Settle(ref: Ref)
    | Return(ref: Ref)
    | Crash(ref: Ref)
    | Tick
    | OperatorRelease
    | Advance(to: int)

  function Start(now: int): World {
    World(now, FREE, map[], [], map[], {}, {})
  }

  /** No pending timer of this call is more than the lag overdue at `t`. */
  predicate TimersPunctual(env: Env, c: Call, t: int) {
    c.Beating() ==>
      && t <= c.nextBeatAt + env.lagMs
      && (c.deadlineAt.Some? ==> t <= c.deadlineAt.value + env.lagMs)
      && (c.forceAt.Some? ==> t <= c.forceAt.value + env.lagMs)
  }

  ghost predicate Enabled(env: Env, w: World, e: Event) {
    match e
    case Begin(r) => r !in w.calls
    case SendClaim(r) => r in w.calls && w.calls[r].phase.Preparing? && !w.calls[r].crashed
    case Apply(i) => i < |w.wire| && w.wire[i].open && w.wire[i].result.None?
    case Answer(i) =>
      && i < |w.wire| && w.wire[i].open && w.wire[i].result.Some?
      && w.wire[i].ref in w.calls && !w.calls[w.wire[i].ref].crashed
      && (w.wire[i].statement.Claim? && w.wire[i].result.value == 1 ==>
            w.now <= w.calls[w.wire[i].ref].startedAt + env.claimLatencyMs)
    case Fail(i) => i < |w.wire| && w.wire[i].open && w.wire[i].ref in w.calls && !w.calls[w.wire[i].ref].crashed
    case BeatTimer(r) => r in w.calls && w.calls[r].Beating() && w.now >= w.calls[r].nextBeatAt
    case DeadlineTimer(r) =>
      r in w.calls && w.calls[r].Beating() && w.calls[r].deadlineAt.Some? && w.now >= w.calls[r].deadlineAt.value
    case ForceTimer(r) =>
      && r in w.calls && w.calls[r].Beating() && w.calls[r].forceAt.Some? && w.now >= w.calls[r].forceAt.value
      && w.calls[r].aborted.Some?
    case Settle(r) => r in w.calls && w.calls[r].Beating()
    case Return(r) => r in w.calls && !w.calls[r].crashed && !w.calls[r].returned && w.calls[r].MayReturn()
    case Crash(r) => r in w.calls && !w.calls[r].crashed
    case Tick => Stale(w.row, w.now + env.skewMs, env.staleMs, env.legacyStaleMs)
    case OperatorRelease => w.row.leaseRef.Some?
    case Advance(t) => t >= w.now && forall r :: r in w.calls ==> TimersPunctual(env, w.calls[r], t)
  }

  function Send(w: World, r: Ref, c: Call, statement: Statement): World {
    w.(calls := w.calls[r := c], wire := w.wire + [Flight(r, statement, w.now, None, true)])
  }

  function Close(w: World, i: nat): World
    requires i < |w.wire|
  {
    w.(wire := w.wire[i := w.wire[i].(open := false)])
  }

  /** The call's reaction to the failure of a statement; a failed release is retried at once. */
  function AfterFailure(env: Env, w: World, r: Ref, statement: Statement): World
    requires r in w.calls
  {
    var c := w.calls[r];
    match statement
    case Claim(_) => Send(w, r, c.StartRelease(), Release)
    case Heartbeat => w.(calls := w.calls[r := c.BeatFailed(w.now, env.timing)])
    case Release =>
      if !c.phase.Releasing? then w
      else
        var c' := c.ReleaseFailed();
        if c'.phase.Releasing? then Send(w, r, c', Release) else w.(calls := w.calls[r := c'])
  }

  function AfterAnswer(env: Env, w: World, r: Ref, f: Flight): World
    requires r in w.calls && f.result.Some?
  {
    var c := w.calls[r];
    var c' := match f.statement
      case Claim(_) => c.ClaimAnswered(f.result.value, w.now, env.timing)
      case Heartbeat => c.BeatAnswered(f.result.value, f.sentMs, w.now, env.timing)
      case Release => c.ReleaseAnswered();
    w.(calls := w.calls[r := c'])
  }

  ghost function Next(env: Env, w: World, e: Event): World
    requires Enabled(env, w, e)
  {
    match e
    case Begin(r) => w.(calls := w.calls[r := NewCall(w.now)])
    case SendClaim(r) =>
      Send(w, r, w.calls[r].ClaimSent(w.now), Claim(w.calls[r].startedAt)).(claims := w.claims[r := |w.wire|])
    case Apply(i) =>
      var f := w.wire[i];
      w.(row := RowAfter(w.row, f.ref, f.statement, w.now + env.skewMs),
         wire := w.wire[i := f.(result := Some(Changes(w.row, f.ref, f.statement)))])
    case Answer(i) => AfterAnswer(env, Close(w, i), w.wire[i].ref, w.wire[i])
    case Fail(i) => AfterFailure(env, Close(w, i), w.wire[i].ref, w.wire[i].statement)
    case BeatTimer(r) => Send(w, r, w.calls[r].BeatTimer(w.now, env.timing), Heartbeat)
    case DeadlineTimer(r) => w.(calls := w.calls[r := w.calls[r].DeadlineTimer(w.now, env.timing)])
    case ForceTimer(r) => w.(calls := w.calls[r := w.calls[r].ForceTimer(w.now)])
    case Settle(r) => Send(w, r, w.calls[r].StartRelease(), Release)
    case Return(r) => w.(calls := w.calls[r := w.calls[r].(returned := true)])
    case Crash(r) => w.(calls := w.calls[r := w.calls[r].(crashed := true)])
    case Tick => w.(row := FREE, freedByTick := w.freedByTick + {w.row.leaseRef.value})
    case OperatorRelease => w.(row := FREE, freedByOperator := w.freedByOperator + {w.row.leaseRef.value})
    case Advance(t) => w.(now := t)
  }

  /** Where the events of `run` lead from `w`, when each of them may happen in turn. */
  ghost function After(env: Env, w: World, run: seq<Event>): Option<World>
    decreases |run|
  {
    if run == [] then Some(w)
    else if Enabled(env, w, run[0]) then After(env, Next(env, w, run[0]), run[1..])
    else None
  }

  ghost predicate Reachable(env: Env, w: World, run: seq<Event>, start: int) {
    After(env, Start(start), run) == Some(w)
  }

  /** The clocks leave room: a silent holder is stopped before the tick may call it stale. */
  predicate Sound(env: Env) {
    && Max(env.timing.heartbeatLossMs, env.claimLatencyMs) + env.timing.heartbeatMs
       + env.timing.graceMs + 2 * env.lagMs <= env.staleMs
    && env.claimLatencyMs + env.timing.deadlineMs + env.timing.graceMs + 2 * env.lagMs <= env.legacyStaleMs
  }

  function Max(a: int, b: int): int {
    if a >= b then a else b
  }

  // ----- the invariant -----

  /** How old an acknowledged heartbeat may grow before its holder has aborted. */
  function AbortBoundMs(env: Env): int {
    Max(env.timing.heartbeatLossMs, env.claimLatencyMs) + env.timing.heartbeatMs
  }

  /** One call's own order of events and its clocks. */
  ghost predicate CallOk(env: Env, c: Call, now: int) {
    && c.startedAt <= c.claimSentMs <= now
    && (c.phase.Running? ==> c.granted)
    && (c.phase.Preparing? || c.phase.Claiming? || c.phase.Refused? ==> !c.granted)
    && (!c.granted ==> c.aborted.None? && c.forceAt.None? && c.deadlineAt.None? && c.forceStops == [])
    && (c.phase.Releasing? ==> 1 <= c.phase.attempt <= LEASE_RELEASE_ATTEMPTS)
    && (c.granted ==>
          && c.claimSentMs <= c.claimedAt <= now
          && c.claimSentMs <= c.lastBeatMs <= now
          && c.claimedAt <= c.startedAt + env.claimLatencyMs)
    && (c.aborted.Some? ==>
          && c.claimedAt <= c.aborted.value.atMs <= now
          && c.aborted.value.atMs <= c.claimedAt + env.timing.deadlineMs + env.lagMs
          && c.aborted.value.atMs <= c.lastBeatMs + AbortBoundMs(env) + env.lagMs)
    && (c.forceStops != [] ==>
          && |c.forceStops| == 1 && c.aborted.Some? && c.forceAt.None?
          && c.forceStops[0].code == c.aborted.value.code
          && c.aborted.value.atMs + env.timing.graceMs <= c.forceStops[0].atMs
             <= c.aborted.value.atMs + env.timing.graceMs + env.lagMs)
    && (c.forceAt.Some? ==> c.aborted.Some? && c.forceAt.value == c.aborted.value.atMs + env.timing.graceMs)
    && (c.returned ==> c.MayReturn())
    && (c.Beating() ==>
          && TimersPunctual(env, c, now)
          && (c.aborted.None? ==>
                && c.nextBeatAt <= c.lastBeatMs + AbortBoundMs(env)
                && c.deadlineAt == Some(c.claimedAt + env.timing.deadlineMs))
          && (c.deadlineAt.Some? ==> c.deadlineAt.value == c.claimedAt + env.timing.deadlineMs)
          && (c.aborted.Some? && c.forceStops == [] ==> c.forceAt.Some?))
  }

  ghost predicate CallsOk(env: Env, w: World) {
    forall r :: r in w.calls ==> CallOk(env, w.calls[r], w.now)
  }

  /** The statements one call may have on the wire. */
  ghost predicate FlightOk(w: World, i: nat)
    requires i < |w.wire|
  {
    var f := w.wire[i];
    && f.ref in w.calls
    && f.sentMs <= w.now
    && var c := w.calls[f.ref];
    match f.statement
    case Claim(startedAt) =>
      && f.ref in w.claims && w.claims[f.ref] == i
      && startedAt == c.startedAt && f.sentMs == c.claimSentMs
      && (f.open ==> c.phase.Claiming?)
      && (f.result.Some? ==> f.result.value <= 1)
      && (c.granted ==> f.result == Some(1))
    case Heartbeat => c.granted && c.claimedAt <= f.sentMs
    case Release =>
      && (c.phase.Releasing? || c.phase.Finished?)
      && (f.open ==> c.phase.Releasing?)
  }

  ghost predicate FlightsOk(w: World) {
    forall i :: 0 <= i < |w.wire| ==> FlightOk(w, i)
  }

  /** Only a call's latest release is still awaited. */
  ghost predicate ReleasesOk(w: World) {
    forall i, j ::
      (0 <= i < j < |w.wire| && w.wire[i].ref == w.wire[j].ref
       && w.wire[i].statement.Release? && w.wire[j].statement.Release?) ==> !w.wire[i].open
  }

  /** A call has a claim on the wire from when it was sent, and awaits it while claiming. */
  ghost predicate ClaimOk(w: World, r: Ref) {
    && (r in w.claims <==> r in w.calls && !w.calls[r].phase.Preparing?)
    && (r in w.claims ==>
          && w.claims[r] < |w.wire| && w.wire[w.claims[r]].ref == r && w.wire[w.claims[r]].statement.Claim?
          && (w.calls[r].phase.Claiming? ==> w.wire[w.claims[r]].open))
  }

  ghost predicate ClaimsOk(w: World) {
    forall r {:trigger w.calls[r]} {:trigger r in w.claims} :: ClaimOk(w, r)
  }

  ghost predicate WireOk(w: World) {
    FlightsOk(w) && ReleasesOk(w) && ClaimsOk(w)
  }

  ghost predicate ClaimApplied(w: World, r: Ref) {
    r in w.claims && w.claims[r] < |w.wire| && w.wire[w.claims[r]].result == Some(1)
  }

  /** What one flight says about the row. */
  ghost predicate FlightRowOk(env: Env, w: World, f: Flight) {
    f.ref in w.calls &&
    match f.statement
    case Claim(startedAt) =>
      (&& f.open && f.result == Some(1) && f.ref !in w.freedByOperator
       && w.now <= w.calls[f.ref].startedAt + env.claimLatencyMs) ==> w.row.leaseRef == Some(f.ref)
    case Heartbeat =>
      f.result == Some(1) && w.row.leaseRef == Some(f.ref) ==>
        w.row.heartbeatAt.Some? && w.row.heartbeatAt.value >= f.sentMs + env.skewMs
    case Release => f.result.Some? ==> w.row.leaseRef != Some(f.ref)
  }

  /** The row against the call whose reference it holds. */
  ghost predicate HolderOk(env: Env, w: World) {
    match w.row.leaseRef
    case None => w.row == FREE
    case Some(r) =>
      && r in w.calls && ClaimApplied(w, r)
      && r !in w.freedByTick && r !in w.freedByOperator
      && w.calls[r].phase != Finished(true)
      && w.row.startedAt == Some(w.calls[r].startedAt)
      && w.row.heartbeatAt.Some?
      && w.calls[r].claimSentMs + env.skewMs <= w.row.heartbeatAt.value <= w.now + env.skewMs
      && (w.calls[r].granted ==> w.row.heartbeatAt.value >= w.calls[r].lastBeatMs + env.skewMs)
  }

  ghost predicate FlightsRowOk(env: Env, w: World) {
    forall i :: 0 <= i < |w.wire| ==> FlightRowOk(env, w, w.wire[i])
  }

  /** A call in its action holds the row until the tick or the operator frees it; the tick frees no live call. */
  ghost predicate HoldOk(w: World, r: Ref) {
    && (r in w.calls && w.calls[r].phase.Running? && r !in w.freedByTick && r !in w.freedByOperator ==>
          w.row.leaseRef == Some(r))
    && (r in w.freedByTick ==>
          r in w.calls && ClaimApplied(w, r) && r !in w.freedByOperator && !w.calls[r].Live())
    && (r in w.freedByOperator ==> r in w.calls && ClaimApplied(w, r))
  }

  ghost predicate HoldersOk(w: World) {
    forall r {:trigger w.calls[r]} {:trigger r in w.freedByTick} {:trigger r in w.freedByOperator} :: HoldOk(w, r)
  }

  ghost predicate RowOk(env: Env, w: World) {
    HolderOk(env, w) && FlightsRowOk(env, w) && HoldersOk(w)
  }

  ghost predicate Inv(env: Env, w: World) {
    CallsOk(env, w) && WireOk(w) && RowOk(env, w)
  }

  // ----- one call's reactions keep its own invariant -----

  lemma AbortKept(env: Env, c: Call, code: AbortCode, now: int)
    requires CallOk(env, c, now) && c.granted && !c.crashed
    ensures CallOk(env, c.Abort(code, now, env.timing), now)
  {
  }

  lemma ClaimAnsweredKept(env: Env, c: Call, changes: nat, now: int)
    requires CallOk(env, c, now) && c.phase.Claiming?
    requires changes == 1 ==> now <= c.startedAt + env.claimLatencyMs
    ensures CallOk(env, c.ClaimAnswered(changes, now, env.timing), now)
  {
  }

  lemma BeatAnsweredKept(env: Env, c: Call, changes: nat, sentMs: int, now: int)
    requires CallOk(env, c, now) && c.granted && !c.crashed && sentMs <= now
    ensures CallOk(env, c.BeatAnswered(changes, sentMs, now, env.timing), now)
  {
    AbortKept(env, c, LeaseLost, now);
  }

  lemma BeatTimerKept(env: Env, c: Call, now: int)
    requires CallOk(env, c, now) && c.Beating() && now >= c.nextBeatAt
    ensures CallOk(env, c.BeatTimer(now, env.timing), now)
  {
  }

  lemma TimersKept(env: Env, c: Call, now: int)
    requires CallOk(env, c, now) && c.Beating()
    ensures c.deadlineAt.Some? && now >= c.deadlineAt.value ==> CallOk(env, c.DeadlineTimer(now, env.timing), now)
    ensures c.forceAt.Some? && now >= c.forceAt.value ==> CallOk(env, c.ForceTimer(now), now)
  {
  }

  lemma ReleaseKept(env: Env, c: Call, now: int)
    requires CallOk(env, c, now) && !c.crashed
    ensures c.phase.Claiming? || c.phase.Running? ==> CallOk(env, c.StartRelease(), now)
    ensures c.phase.Releasing? ==> CallOk(env, c.ReleaseFailed(), now) && CallOk(env, c.ReleaseAnswered(), now)
  {
  }

  /** Which call an event changes, if any. */
  function Subject(w: World, e: Event): Option<Ref>
    requires e.Answer? || e.Fail? ==> e.id < |w.wire|
  {
    match e
    case Answer(i) => Some(w.wire[i].ref)
    case Fail(i) => Some(w.wire[i].ref)
    case Begin(r) => Some(r)
    case SendClaim(r) => Some(r)
    case BeatTimer(r) => Some(r)
    case DeadlineTimer(r) => Some(r)
    case ForceTimer(r) => Some(r)
    case Settle(r) => Some(r)
    case Return(r) => Some(r)
    case Crash(r) => Some(r)
    case _ => None
  }

  lemma OthersUntouched(env: Env, w: World, e: Event, r: Ref)
    requires Enabled(env, w, e) && Subject(w, e) != Some(r)
    ensures r in Next(env, w, e).calls <==> r in w.calls
    ensures r in w.calls ==> Next(env, w, e).calls[r] == w.calls[r]
  {
  }

  lemma AnswerKept(env: Env, w: World, i: nat)
    requires Enabled(env, w, Answer(i)) && FlightOk(w, i) && CallOk(env, w.calls[w.wire[i].ref], w.now)
    ensures CallOk(env, Next(env, w, Answer(i)).calls[w.wire[i].ref], w.now)
  {
    var f, c := w.wire[i], w.calls[w.wire[i].ref];
    match f.statement
    case Claim(_) => ClaimAnsweredKept(env, c, f.result.value, w.now);
    case Heartbeat => BeatAnsweredKept(env, c, f.result.value, f.sentMs, w.now);
    case Release => ReleaseKept(env, c, w.now);
  }

  lemma FailKept(env: Env, w: World, i: nat)
    requires Enabled(env, w, Fail(i)) && FlightOk(w, i) && CallOk(env, w.calls[w.wire[i].ref], w.now)
    ensures CallOk(env, Next(env, w, Fail(i)).calls[w.wire[i].ref], w.now)
  {
    var c := w.calls[w.wire[i].ref];
    if w.wire[i].statement.Heartbeat? {
      AbortKept(env, c, LeaseLost, w.now);
    } else {
      ReleaseKept(env, c, w.now);
    }
  }

  lemma TimedKept(env: Env, w: World, e: Event)
    requires e.BeatTimer? || e.DeadlineTimer? || e.ForceTimer? || e.Settle?
    requires Enabled(env, w, e) && CallOk(env, w.calls[e.ref], w.now)
    ensures CallOk(env, Next(env, w, e).calls[e.ref], w.now)
  {
    var c := w.calls[e.ref];
    if e.BeatTimer? {
      BeatTimerKept(env, c, w.now);
      assert Next(env, w, e).calls[e.ref] == c.BeatTimer(w.now, env.timing);
    } else if e.Settle? {
      ReleaseKept(env, c, w.now);
      assert Next(env, w, e).calls[e.ref] == c.StartRelease();
    } else {
      TimersKept(env, c, w.now);
    }
  }

  lemma UntimedKept(env: Env, w: World, e: Event)
    requires e.Begin? || e.SendClaim? || e.Return? || e.Crash?
    requires Enabled(env, w, e) && (e.ref in w.calls ==> CallOk(env, w.calls[e.ref], w.now))
    ensures CallOk(env, Next(env, w, e).calls[e.ref], w.now)
  {
    var c := Next(env, w, e).calls[e.ref];
    match e
    case Begin(r) => assert c == NewCall(w.now);
    case SendClaim(r) => assert c == w.calls[r].ClaimSent(w.now);
    case Return(r) => assert c == w.calls[r].(returned := true);
    case Crash(r) => assert c == w.calls[r].(crashed := true);
  }

  lemma SubjectKept(env: Env, w: World, e: Event, r: Ref)
    requires !e.Answer? && !e.Fail?
    requires Enabled(env, w, e) && Subject(w, e) == Some(r)
    requires r in w.calls ==> CallOk(env, w.calls[r], w.now)
    ensures CallOk(env, Next(env, w, e).calls[r], w.now)
  {
    if e.BeatTimer? || e.DeadlineTimer? || e.ForceTimer? || e.Settle? {
      TimedKept(env, w, e);
    } else {
      UntimedKept(env, w, e);
    }
  }

  lemma OtherKept(env: Env, w: World, e: Event, r: Ref)
    requires Enabled(env, w, e) && Subject(w, e) != Some(r) && r in w.calls && CallOk(env, w.calls[r], w.now)
    ensures CallOk(env, w.calls[r], Next(env, w, e).now)
  {
  }

  lemma CallKept(env: Env, w: World, e: Event, r: Ref)
    requires CallsOk(env, w) && FlightsOk(w) && Enabled(env, w, e) && r in Next(env, w, e).calls
    ensures CallOk(env, Next(env, w, e).calls[r], Next(env, w, e).now)
  {
    if Subject(w, e) != Some(r) {
      OthersUntouched(env, w, e, r);
      OtherKept(env, w, e, r);
    } else if e.Answer? {
      assert FlightOk(w, e.id);
      AnswerKept(env, w, e.id);
    } else if e.Fail? {
      assert FlightOk(w, e.id);
      FailKept(env, w, e.id);
    } else {
      SubjectKept(env, w, e, r);
    }
  }

  lemma CallsKept(env: Env, w: World, e: Event)
    requires CallsOk(env, w) && WireOk(w) && Enabled(env, w, e)
    ensures CallsOk(env, Next(env, w, e))
  {
    forall r | r in Next(env, w, e).calls ensures CallOk(env, Next(env, w, e).calls[r], Next(env, w, e).now) {
      CallKept(env, w, e, r);
    }
  }

  // ----- the statements on the wire -----

  /** A flight that was on the wire stays lawful. */
  lemma FlightKept(env: Env, w: World, e: Event, j: nat)
    requires Enabled(env, w, e) && !e.Answer? && !e.Fail? && j < |w.wire| && FlightOk(w, j)
    requires e.Apply? ==> FlightOk(w, e.id)
    requires e.SendClaim? ==> e.ref !in w.claims
    requires e.Settle? ==> w.calls[e.ref].granted
    ensures FlightOk(Next(env, w, e), j)
  {
  }

  /** Two of one call's releases: at most one is awaited. */
  predicate OneAwaited(f: Flight, g: Flight) {
    f.ref == g.ref && f.statement.Release? && g.statement.Release? ==> !(f.open && g.open)
  }

  lemma FlightAnsweredKept(env: Env, w: World, i: nat, j: nat)
    requires Enabled(env, w, Answer(i)) && j < |w.wire| && FlightOk(w, j) && FlightOk(w, i)
    requires i != j ==> OneAwaited(w.wire[i], w.wire[j])
    requires w.calls[w.wire[j].ref].phase.Claiming? ==> !w.calls[w.wire[j].ref].granted
    ensures FlightOk(Next(env, w, Answer(i)), j)
  {
  }

  lemma FlightFailedKept(env: Env, w: World, i: nat, j: nat)
    requires Enabled(env, w, Fail(i)) && j < |w.wire| && FlightOk(w, j) && FlightOk(w, i)
    requires i != j ==> OneAwaited(w.wire[i], w.wire[j])
    requires w.calls[w.wire[j].ref].phase.Claiming? ==> !w.calls[w.wire[j].ref].granted
    ensures FlightOk(Next(env, w, Fail(i)), j)
  {
  }

  lemma FlightsKept(env: Env, w: World, e: Event)
    requires WireOk(w) && CallsOk(env, w) && Enabled(env, w, e)
    ensures FlightsOk(Next(env, w, e))
  {
    var w' := Next(env, w, e);
    assert e.Apply? || e.Answer? || e.Fail? ==> FlightOk(w, e.id);
    forall j | 0 <= j < |w'.wire| ensures FlightOk(w', j) {
      if j < |w.wire| {
        assert FlightOk(w, j);
        if e.Answer? {
          FlightAnsweredKept(env, w, e.id, j);
        } else if e.Fail? {
          FlightFailedKept(env, w, e.id, j);
        } else {
          FlightKept(env, w, e, j);
        }
      }
    }
  }

  lemma ReleasePairKept(env: Env, w: World, e: Event, i: nat, j: nat)
    requires ReleasesOk(w) && Enabled(env, w, e) && i < j < |Next(env, w, e).wire| && i < |w.wire| && FlightOk(w, i)
    requires e.Apply? || e.Answer? || e.Fail? ==> FlightOk(w, e.id)
    requires var wire := Next(env, w, e).wire;
      wire[i].ref == wire[j].ref && wire[i].statement.Release? && wire[j].statement.Release?
    ensures !Next(env, w, e).wire[i].open
  {
  }

  lemma ReleasesKept(env: Env, w: World, e: Event)
    requires WireOk(w) && CallsOk(env, w) && Enabled(env, w, e)
    ensures ReleasesOk(Next(env, w, e))
  {
    var w' := Next(env, w, e);
    assert e.Apply? || e.Answer? || e.Fail? ==> FlightOk(w, e.id);
    forall i, j | 0 <= i < j < |w'.wire| && w'.wire[i].ref == w'.wire[j].ref
                  && w'.wire[i].statement.Release? && w'.wire[j].statement.Release?
      ensures !w'.wire[i].open
    {
      assert FlightOk(w, i);
      ReleasePairKept(env, w, e, i, j);
    }
  }

  lemma ClaimKept(env: Env, w: World, e: Event, r: Ref)
    requires Enabled(env, w, e) && ClaimOk(w, r)
    requires e.Answer? || e.Fail? ==> FlightOk(w, e.id)
    requires e.Answer? || e.Fail? ==> (w.calls[w.wire[e.id].ref].phase.Preparing? ==> !w.calls[w.wire[e.id].ref].granted)
    ensures ClaimOk(Next(env, w, e), r)
  {
    match e
    case Answer(i) => assert ClaimOk(Next(env, w, Answer(i)), r);
    case Fail(i) => assert ClaimOk(Next(env, w, Fail(i)), r);
    case _ =>
  }

  lemma ClaimsKept(env: Env, w: World, e: Event)
    requires WireOk(w) && CallsOk(env, w) && Enabled(env, w, e)
    ensures ClaimsOk(Next(env, w, e))
  {
    assert e.Answer? || e.Fail? ==> FlightOk(w, e.id);
    forall r ensures ClaimOk(Next(env, w, e), r) {
      assert ClaimOk(w, r);
      ClaimKept(env, w, e, r);
    }
  }

  // ----- the row -----

  /** Whoever the tick may free is past its heartbeat bound or its deadline, so it has already stopped. */
  lemma StaleHolderStopped(env: Env, w: World, r: Ref)
    requires Sound(env) && HolderOk(env, w) && w.row.leaseRef == Some(r) && CallOk(env, w.calls[r], w.now)
    requires Stale(w.row, w.now + env.skewMs, env.staleMs, env.legacyStaleMs)
    ensures !w.calls[r].Live()
    ensures w.calls[r].phase.Claiming? ==> w.now > w.calls[r].startedAt + env.claimLatencyMs
  {
  }

  lemma HolderAnsweredKept(env: Env, w: World, e: Event)
    requires e.Answer? || e.Fail?
    requires Enabled(env, w, e) && HolderOk(env, w)
    requires FlightOk(w, e.id) && FlightRowOk(env, w, w.wire[e.id])
    ensures HolderOk(env, Next(env, w, e))
  {
    if e.Answer? {
      assert HolderOk(env, Next(env, w, Answer(e.id)));
    }
  }

  lemma HolderKept(env: Env, w: World, e: Event)
    requires !e.Answer? && !e.Fail?
    requires Enabled(env, w, e) && HolderOk(env, w)
    requires e.Apply? ==>
               FlightOk(w, e.id) && HoldOk(w, w.wire[e.id].ref) && CallOk(env, w.calls[w.wire[e.id].ref], w.now)
    requires w.row.leaseRef.Some? ==> ClaimOk(w, w.row.leaseRef.value)
    ensures HolderOk(env, Next(env, w, e))
  {
  }

  /** Events of D1 and of the clock; the others are a call's own. */
  predicate Outside(e: Event) {
    e.Apply? || e.Tick? || e.OperatorRelease? || e.Advance?
  }

  lemma HoldKeptOutside(env: Env, w: World, e: Event, r: Ref)
    requires Outside(e)
    requires Sound(env) && Enabled(env, w, e) && HolderOk(env, w) && HoldOk(w, r)
    requires w.row.leaseRef.Some? ==> CallOk(env, w.calls[w.row.leaseRef.value], w.now)
    requires e.Apply? ==> FlightOk(w, e.id)
    ensures HoldOk(Next(env, w, e), r)
  {
    if e.Tick? {
      StaleHolderStopped(env, w, w.row.leaseRef.value);
    }
  }

  lemma HoldKeptByAnswer(env: Env, w: World, e: Event, r: Ref)
    requires e.Answer? || e.Fail?
    requires Enabled(env, w, e) && HolderOk(env, w) && HoldOk(w, r)
    requires FlightOk(w, e.id) && FlightRowOk(env, w, w.wire[e.id])
    ensures HoldOk(Next(env, w, e), r)
  {
    if e.Answer? {
      assert HoldOk(Next(env, w, Answer(e.id)), r);
    } else {
      assert HoldOk(Next(env, w, Fail(e.id)), r);
    }
  }

  lemma HoldKeptByCall(env: Env, w: World, e: Event, r: Ref)
    requires !Outside(e) && !e.Answer? && !e.Fail?
    requires Enabled(env, w, e) && HoldOk(w, r) && ClaimOk(w, r)
    ensures HoldOk(Next(env, w, e), r)
  {
  }

  lemma HoldKept(env: Env, w: World, e: Event, r: Ref)
    requires Sound(env) && Inv(env, w) && Enabled(env, w, e)
    ensures HoldOk(Next(env, w, e), r)
  {
    assert HoldOk(w, r) && ClaimOk(w, r);
    if Outside(e) {
      assert e.Apply? ==> FlightOk(w, e.id);
      HoldKeptOutside(env, w, e, r);
    } else if e.Answer? || e.Fail? {
      assert FlightOk(w, e.id) && FlightRowOk(env, w, w.wire[e.id]);
      HoldKeptByAnswer(env, w, e, r);
    } else {
      HoldKeptByCall(env, w, e, r);
    }
  }

  lemma FlightRowKeptByTick(env: Env, w: World, j: nat)
    requires Sound(env) && Enabled(env, w, Tick) && j < |w.wire|
    requires FlightOk(w, j) && FlightRowOk(env, w, w.wire[j]) && HolderOk(env, w)
    requires CallOk(env, w.calls[w.row.leaseRef.value], w.now)
    ensures FlightRowOk(env, Next(env, w, Tick), w.wire[j])
  {
    StaleHolderStopped(env, w, w.row.leaseRef.value);
  }

  lemma FlightRowKeptOutside(env: Env, w: World, e: Event, j: nat)
    requires Outside(e) && !e.Tick?
    requires Enabled(env, w, e) && j < |w.wire| && FlightOk(w, j) && FlightRowOk(env, w, w.wire[j]) && HolderOk(env, w)
    requires e.Apply? ==> FlightOk(w, e.id) && FlightRowOk(env, w, w.wire[e.id])
    ensures FlightRowOk(env, Next(env, w, e), Next(env, w, e).wire[j])
  {
  }

  lemma FlightRowKeptByAnswer(env: Env, w: World, e: Event, j: nat)
    requires e.Answer? || e.Fail?
    requires Enabled(env, w, e) && j < |w.wire| && FlightOk(w, j) && FlightRowOk(env, w, w.wire[j])
    requires FlightOk(w, e.id)
    ensures FlightRowOk(env, Next(env, w, e), Next(env, w, e).wire[j])
  {
    if e.Answer? {
      assert FlightRowOk(env, Next(env, w, Answer(e.id)), Next(env, w, Answer(e.id)).wire[j]);
    } else {
      assert FlightRowOk(env, Next(env, w, Fail(e.id)), Next(env, w, Fail(e.id)).wire[j]);
    }
  }

  lemma FlightRowKeptByCall(env: Env, w: World, e: Event, j: nat)
    requires !Outside(e) && !e.Answer? && !e.Fail?
    requires Enabled(env, w, e) && j < |w.wire| && FlightOk(w, j) && FlightRowOk(env, w, w.wire[j])
    ensures FlightRowOk(env, Next(env, w, e), Next(env, w, e).wire[j])
  {
  }

  lemma FlightRowKept(env: Env, w: World, e: Event, j: nat)
    requires Sound(env) && Inv(env, w) && Enabled(env, w, e) && j < |w.wire|
    ensures FlightRowOk(env, Next(env, w, e), Next(env, w, e).wire[j])
  {
    assert FlightOk(w, j) && FlightRowOk(env, w, w.wire[j]);
    assert e.Apply? || e.Answer? || e.Fail? ==> FlightOk(w, e.id) && FlightRowOk(env, w, w.wire[e.id]);
    if e.Tick? {
      FlightRowKeptByTick(env, w, j);
    } else if Outside(e) {
      FlightRowKeptOutside(env, w, e, j);
    } else if e.Answer? || e.Fail? {
      FlightRowKeptByAnswer(env, w, e, j);
    } else {
      FlightRowKeptByCall(env, w, e, j);
    }
  }

  // ----- every run -----

  lemma HoldersKept(env: Env, w: World, e: Event)
    requires Sound(env) && Inv(env, w) && Enabled(env, w, e)
    ensures HoldersOk(Next(env, w, e))
  {
    forall r ensures HoldOk(Next(env, w, e), r) {
      HoldKept(env, w, e, r);
    }
  }

  lemma NewFlightRowOk(env: Env, w: World, e: Event, j: nat)
    requires Enabled(env, w, e) && |w.wire| <= j < |Next(env, w, e).wire|
    ensures FlightRowOk(env, Next(env, w, e), Next(env, w, e).wire[j])
  {
  }

  lemma FlightsRowKept(env: Env, w: World, e: Event)
    requires Sound(env) && Inv(env, w) && Enabled(env, w, e)
    ensures FlightsRowOk(env, Next(env, w, e))
  {
    forall j | 0 <= j < |Next(env, w, e).wire| ensures FlightRowOk(env, Next(env, w, e), Next(env, w, e).wire[j]) {
      if j < |w.wire| {
        FlightRowKept(env, w, e, j);
      } else {
        NewFlightRowOk(env, w, e, j);
      }
    }
  }

  lemma HolderStaysOk(env: Env, w: World, e: Event)
    requires Inv(env, w) && Enabled(env, w, e)
    ensures HolderOk(env, Next(env, w, e))
  {
    if e.Answer? || e.Fail? {
      assert FlightOk(w, e.id) && FlightRowOk(env, w, w.wire[e.id]);
      HolderAnsweredKept(env, w, e);
    } else {
      assert e.Apply? ==> FlightOk(w, e.id) && HoldOk(w, w.wire[e.id].ref);
      HolderKept(env, w, e);
    }
  }

  lemma InvKept(env: Env, w: World, e: Event)
    requires Sound(env) && Inv(env, w) && Enabled(env, w, e)
    ensures Inv(env, Next(env, w, e))
  {
    CallsKept(env, w, e);
    FlightsKept(env, w, e);
    ReleasesKept(env, w, e);
    ClaimsKept(env, w, e);
    HolderStaysOk(env, w, e);
    FlightsRowKept(env, w, e);
    HoldersKept(env, w, e);
  }

  lemma {:induction false} InvAlways(env: Env, w: World, run: seq<Event>)
    requires Sound(env) && Inv(env, w) && After(env, w, run).Some?
    ensures Inv(env, After(env, w, run).value)
    decreases |run|
  {
    if run != [] {
      InvKept(env, w, run[0]);
      InvAlways(env, Next(env, w, run[0]), run[1..]);
    }
  }

  lemma StartOk(env: Env, start: int)
    ensures Inv(env, Start(start))
  {
    forall r ensures ClaimOk(Start(start), r) && HoldOk(Start(start), r) {
    }
  }

  lemma Reached(env: Env, w: World, run: seq<Event>, start: int)
    requires Sound(env) && Reachable(env, w, run, start)
    ensures Inv(env, w)
  {
    StartOk(env, start);
    InvAlways(env, Start(start), run);
  }

  /** Live, and not freed by the operator. */
  predicate LiveHolder(w: World, r: Ref) {
    r in w.calls && w.calls[r].Live() && r !in w.freedByOperator
  }

  ghost predicate AtMostOneHolder(w: World) {
    forall a: Ref, b: Ref :: LiveHolder(w, a) && LiveHolder(w, b) ==> a == b && w.row.leaseRef == Some(a)
  }

  ghost predicate FreedHaveStopped(w: World) {
    forall r :: r in w.freedByTick ==> r in w.calls && !w.calls[r].Live()
  }

  lemma InvExcludes(env: Env, w: World)
    requires Inv(env, w)
    ensures AtMostOneHolder(w) && FreedHaveStopped(w)
  {
    forall r ensures HoldOk(w, r) {
    }
  }

  /**
    Two calls that the operator did not free are never both claimed, unsettled and
    not yet stopped by force; and whoever is so holds the row.
   */
  lemma MutualExclusion(env: Env, w: World, run: seq<Event>, start: int, a: Ref, b: Ref)
    requires Sound(env) && Reachable(env, w, run, start)
    requires LiveHolder(w, a) && LiveHolder(w, b)
    ensures a == b && w.row.leaseRef == Some(a)
  {
    Reached(env, w, run, start);
    assert HoldOk(w, a) && HoldOk(w, b);
  }

  /** The tick frees a lease only after its holder stopped, and that holder never becomes live again. */
  lemma TickFreesOnlyStopped(env: Env, w: World, run: seq<Event>, start: int, r: Ref)
    requires Sound(env) && Reachable(env, w, run, start)
    requires r in w.freedByTick
    ensures r in w.calls && !w.calls[r].Live() && w.row.leaseRef != Some(r)
  {
    Reached(env, w, run, start);
    assert HoldOk(w, r);
  }

  /** A live holder's heartbeat and age bounds, and what the row says of it. */
  lemma HolderBounds(env: Env, w: World, run: seq<Event>, start: int, r: Ref)
    requires Sound(env) && Reachable(env, w, run, start)
    requires r in w.calls && w.calls[r].Live()
    ensures var c := w.calls[r];
      && (c.aborted.None? ==> w.now <= c.lastBeatMs + AbortBoundMs(env) + env.lagMs)
      && (c.aborted.Some? ==>
            && c.aborted.value.atMs <= c.lastBeatMs + AbortBoundMs(env) + env.lagMs
            && w.now <= c.aborted.value.atMs + env.timing.graceMs + env.lagMs)
      && w.now <= c.claimedAt + env.timing.deadlineMs + env.timing.graceMs + 2 * env.lagMs
    ensures r !in w.freedByOperator ==>
      && w.row.heartbeatAt.Some? && w.row.startedAt == Some(w.calls[r].startedAt)
      && w.row.heartbeatAt.value >= w.calls[r].lastBeatMs + env.skewMs
      && !Stale(w.row, w.now + env.skewMs, env.staleMs, env.legacyStaleMs)
  {
    Reached(env, w, run, start);
    assert HoldOk(w, r) && CallOk(env, w.calls[r], w.now);
    if r !in w.freedByOperator && Stale(w.row, w.now + env.skewMs, env.staleMs, env.legacyStaleMs) {
      StaleHolderStopped(env, w, r);
    }
  }

  /** A call in its action that nobody freed holds the row, and an unheld row is blank. */
  lemma UnsettledCallHolds(env: Env, w: World, run: seq<Event>, start: int, r: Ref)
    requires Sound(env) && Reachable(env, w, run, start)
    ensures r in w.calls && w.calls[r].phase.Running? && r !in w.freedByTick + w.freedByOperator ==>
              w.row.leaseRef == Some(r)
    ensures w.row.leaseRef.None? ==> w.row.startedAt.None? && w.row.heartbeatAt.None?
  {
    Reached(env, w, run, start);
    assert HoldOk(w, r);
  }

  /** A statement of one call neither clears nor refreshes a lease another call holds. */
  lemma StatementsTouchOnlyTheirOwn(env: Env, w: World, i: nat)
    requires Enabled(env, w, Apply(i))
    requires w.row.leaseRef.Some? && w.row.leaseRef != Some(w.wire[i].ref)
    ensures Next(env, w, Apply(i)).row == w.row && Next(env, w, Apply(i)).wire[i].result == Some(0)
  {
  }

  /** What may end a lease that `r` holds: the tick, the operator, or D1 running a release of `r` itself. */
  predicate Ends(w: World, e: Event, r: Ref) {
    e.Tick? || e.OperatorRelease? || (e.Apply? && e.id < |w.wire| && w.wire[e.id].ref == r && w.wire[e.id].statement.Release?)
  }

  /** Over any continuation, a lease that `r` held and holds no longer was ended by one of these. */
  lemma {:induction false} LeaseEndsByItsOwner(env: Env, w: World, later: seq<Event>, r: Ref) returns (k: nat)
    requires After(env, w, later).Some? && w.row.leaseRef == Some(r) && After(env, w, later).value.row.leaseRef != Some(r)
    ensures k < |later| && After(env, w, later[..k]).Some?
    ensures After(env, w, later[..k]).value.row.leaseRef == Some(r) && Ends(After(env, w, later[..k]).value, later[k], r)
    decreases |later|
  {
    var w1 := Next(env, w, later[0]);
    if w1.row.leaseRef != Some(r) {
      if later[0].Apply? && w.wire[later[0].id].ref != r {
        StatementsTouchOnlyTheirOwn(env, w, later[0].id);
      }
      assert later[..0] == [];
      k := 0;
    } else {
      k := LeaseEndsByItsOwner(env, w1, later[1..], r);
      assert later[..k + 1][1..] == later[1..][..k];
      k := k + 1;
    }
  }

  /** `releaseOwnLease` returning true means the reference is gone, in this and every later state. */
  lemma ReleasedIsGone(env: Env, w: World, run: seq<Event>, start: int, later: seq<Event>, w': World, r: Ref)
    requires Sound(env) && Reachable(env, w, run, start) && After(env, w, later) == Some(w')
    requires r in w.calls && w.calls[r].phase == Finished(true)
    ensures w'.row.leaseRef != Some(r)
  {
    Reached(env, w, run, start);
    InvAlways(env, w, later);
    HistoryKept(env, w, later, r);
  }

  /** What no event takes back. */
  ghost predicate Extends(c: Call, c': Call) {
    && (c.aborted.Some? ==> c'.aborted == c.aborted)
    && |c.forceStops| <= |c'.forceStops| && c'.forceStops[..|c.forceStops|] == c.forceStops
    && (c.Settled() ==> c'.Settled() && c'.aborted == c.aborted && c'.forceStops == c.forceStops)
    && (c.phase.Finished? ==> c'.phase == c.phase)
    && (c.returned ==> c'.returned)
  }

  lemma CallExtends(env: Env, w: World, e: Event, r: Ref)
    requires Enabled(env, w, e) && r in w.calls
    requires e.Answer? || e.Fail? ==> FlightOk(w, e.id) && CallOk(env, w.calls[w.wire[e.id].ref], w.now)
    ensures r in Next(env, w, e).calls && Extends(w.calls[r], Next(env, w, e).calls[r])
  {
    if Subject(w, e) != Some(r) {
      OthersUntouched(env, w, e, r);
    } else if e.Answer? {
      assert Extends(w.calls[r], Next(env, w, Answer(e.id)).calls[r]);
    }
  }

  lemma ExtendsFurther(c: Call, c': Call, c'': Call)
    requires Extends(c, c') && Extends(c', c'')
    ensures Extends(c, c'')
  {
    assert c''.forceStops[..|c.forceStops|] == c''.forceStops[..|c'.forceStops|][..|c.forceStops|];
  }

  /**
    Over every continuation: the abort's reason is fixed once given, force stops
    are never taken back, and after the action settled nothing is aborted or forced.
   */
  lemma {:induction false} HistoryKept(env: Env, w: World, later: seq<Event>, r: Ref)
    requires Sound(env) && Inv(env, w) && After(env, w, later).Some? && r in w.calls
    ensures r in After(env, w, later).value.calls && Extends(w.calls[r], After(env, w, later).value.calls[r])
    decreases |later|
  {
    if later != [] {
      var e := later[0];
      assert e.Answer? || e.Fail? ==> FlightOk(w, e.id);
      CallExtends(env, w, e, r);
      InvKept(env, w, e);
      HistoryKept(env, Next(env, w, e), later[1..], r);
      ExtendsFurther(w.calls[r], Next(env, w, e).calls[r], After(env, w, later).value.calls[r]);
    }
  }

  ghost predicate HistoryExtends(w: World, w': World) {
    forall r :: r in w.calls ==> r in w'.calls && Extends(w.calls[r], w'.calls[r])
  }

  lemma RunExtends(env: Env, w: World, run: seq<Event>)
    requires Sound(env) && Inv(env, w) && After(env, w, run).Some?
    ensures HistoryExtends(w, After(env, w, run).value)
  {
    forall r | r in w.calls
      ensures r in After(env, w, run).value.calls && Extends(w.calls[r], After(env, w, run).value.calls[r])
    {
      HistoryKept(env, w, run, r);
    }
  }

  /** `forceStop` runs at most once, with the abort's code, and at least the grace period after the abort. */
  lemma ForceStopOnce(env: Env, w: World, run: seq<Event>, start: int, r: Ref)
    requires Sound(env) && Reachable(env, w, run, start) && r in w.calls && w.calls[r].forceStops != []
    ensures var c := w.calls[r];
      && |c.forceStops| == 1 && c.aborted.Some?
      && c.forceStops[0].code == c.aborted.value.code
      && c.forceStops[0].atMs >= c.aborted.value.atMs + env.timing.graceMs
  {
    Reached(env, w, run, start);
    assert CallOk(env, w.calls[r], w.now);
  }

  /**
    A granted call's release is sent only after its action settled, and a call that
    was not forced returns only after its release attempts are over (or its claim was refused).
   */
  lemma ReleaseAfterSettling(env: Env, w: World, run: seq<Event>, start: int, r: Ref)
    requires Sound(env) && Reachable(env, w, run, start) && r in w.calls
    ensures w.calls[r].granted && (exists i :: 0 <= i < |w.wire| && w.wire[i].ref == r && w.wire[i].statement.Release?) ==>
              w.calls[r].Settled()
    ensures w.calls[r].returned && w.calls[r].forceStops == [] ==> w.calls[r].phase.Refused? || w.calls[r].phase.Finished?
  {
    Reached(env, w, run, start);
    assert CallOk(env, w.calls[r], w.now);
    if i :| 0 <= i < |w.wire| && w.wire[i].ref == r && w.wire[i].statement.Release? {
      assert FlightOk(w, i);
    }
  }

  // ----- why a call aborts, and what follows -----

  /** A heartbeat of `r` is answered. */
  predicate BeatAnswered(w: World, e: Event, r: Ref) {
    e.Answer? && e.id < |w.wire| && w.wire[e.id].ref == r && w.wire[e.id].statement.Heartbeat? && w.wire[e.id].result.Some?
  }

  predicate BeatFailed(w: World, e: Event, r: Ref) {
    e.Fail? && e.id < |w.wire| && w.wire[e.id].ref == r && w.wire[e.id].statement.Heartbeat?
  }

  /** It is answered without a row refreshed. */
  predicate LossSeen(w: World, e: Event, r: Ref) {
    BeatAnswered(w, e, r) && w.wire[e.id].result.value != 1
  }

  /** No heartbeat has been acknowledged for too long, and a tick or a failed heartbeat makes the call look. */
  predicate SilenceSeen(env: Env, w: World, e: Event, r: Ref) {
    && r in w.calls && w.now - w.calls[r].lastBeatMs >= env.timing.heartbeatLossMs
    && (e == BeatTimer(r) || BeatFailed(w, e, r))
  }

  /** An unsettled call that has not aborted does so at exactly these events, for these reasons. */
  lemma AbortsIff(env: Env, w: World, e: Event, r: Ref, code: AbortCode)
    requires Enabled(env, w, e) && r in w.calls && !w.calls[r].Settled() && w.calls[r].aborted.None?
    requires e.Answer? || e.Fail? ==> FlightOk(w, e.id)
    ensures Next(env, w, e).calls[r].aborted == Some(ForceStop(code, w.now)) <==>
              match code
              case DeadlineExceeded => e == DeadlineTimer(r)
              case LeaseLost => LossSeen(w, e, r) || SilenceSeen(env, w, e, r)
    ensures Next(env, w, e).calls[r].aborted.Some? ==>
              exists c :: Next(env, w, e).calls[r].aborted == Some(ForceStop(c, w.now))
  {
    if Subject(w, e) != Some(r) {
      OthersUntouched(env, w, e, r);
    }
  }
  lemma LossAborts(env: Env, w: World, e: Event, r: Ref)
    requires Enabled(env, w, e) && LossSeen(w, e, r) && FlightOk(w, e.id) && CallOk(env, w.calls[r], w.now)
    ensures r in Next(env, w, e).calls
    ensures var c, c1 := w.calls[r], Next(env, w, e).calls[r];
      && (c1.Settled() || (c1.aborted.Some? && c1.aborted.value.atMs <= w.now))
      && (!c.Settled() && c.aborted.None? ==> c1.aborted == Some(ForceStop(LeaseLost, w.now)))
  {
    if !w.calls[r].Settled() && w.calls[r].aborted.None? {
      AbortsIff(env, w, e, r, LeaseLost);
    } else {
      CallExtends(env, w, e, r);
    }
  }

  lemma AbortedIsOverInTime(env: Env, c: Call, now: int)
    requires CallOk(env, c, now) && c.Live() && c.aborted.Some?
    ensures now <= c.aborted.value.atMs + env.timing.graceMs + env.lagMs
  {
  }

  /**
    A heartbeat that finds the lease gone aborts its call then and there, unless that has settled or aborted
    already; the reason stays, and in every later state the call is over once the grace period, and the
    force timer's lag, have passed.
   */
  lemma LostLeaseStops(env: Env, w: World, e: Event, r: Ref, later: seq<Event>, w': World)
    requires Sound(env) && Inv(env, w) && Enabled(env, w, e) && LossSeen(w, e, r)
    requires After(env, Next(env, w, e), later) == Some(w')
    ensures LossHeeded(env, w, r, w')
  {
    assert FlightOk(w, e.id) && CallOk(env, w.calls[r], w.now);
    LossAborts(env, w, e, r);
    InvKept(env, w, e);
    HeededLater(env, w, Next(env, w, e), r, later, w');
  }

  /** How a call stands in `w'` that was told at `w` that its lease is gone. */
  predicate LossHeeded(env: Env, w: World, r: Ref, w': World) {
    r in w.calls && r in w'.calls &&
    var c, c' := w.calls[r], w'.calls[r];
    && (c'.Settled() || c'.aborted.Some?)
    && (!c.Settled() && c.aborted.None? ==> c'.aborted == Some(ForceStop(LeaseLost, w.now)))
    && (c'.Live() ==> w'.now <= w.now + env.timing.graceMs + env.lagMs)
  }

  lemma HeededLater(env: Env, w: World, w1: World, r: Ref, later: seq<Event>, w': World)
    requires Sound(env) && Inv(env, w1) && After(env, w1, later) == Some(w') && r in w.calls && r in w1.calls
    requires var c, c1 := w.calls[r], w1.calls[r];
      && (c1.Settled() || (c1.aborted.Some? && c1.aborted.value.atMs <= w.now))
      && (!c.Settled() && c.aborted.None? ==> c1.aborted == Some(ForceStop(LeaseLost, w.now)))
    ensures LossHeeded(env, w, r, w')
  {
    HistoryKept(env, w1, later, r);
    InvAlways(env, w1, later);
    if w'.calls[r].Live() {
      AbortedIsOverInTime(env, w'.calls[r], w'.now);
    }
  }

  /** The state that the first `k` events of a run lead to. */
  ghost function AfterFirst(env: Env, w: World, run: seq<Event>, k: nat): Option<World>
    requires k <= |run|
  {
    After(env, w, run[..k])
  }

  /** Every heartbeat of the run that found its lease gone was heeded. */
  ghost predicate LossesHeeded(env: Env, w: World, run: seq<Event>, w': World) {
    forall k, r :: 0 <= k < |run| && AfterFirst(env, w, run, k).Some? && LossSeen(AfterFirst(env, w, run, k).value, run[k], r) ==>
      LossHeeded(env, AfterFirst(env, w, run, k).value, r, w')
  }

  lemma {:induction false} AfterSplits(env: Env, w: World, run: seq<Event>, k: nat)
    requires k < |run| && After(env, w, run).Some?
    ensures AfterFirst(env, w, run, k).Some? && Enabled(env, AfterFirst(env, w, run, k).value, run[k])
    ensures After(env, Next(env, AfterFirst(env, w, run, k).value, run[k]), run[k + 1..]) == After(env, w, run)
    decreases |run|
  {
    if k > 0 {
      AfterSplits(env, Next(env, w, run[0]), run[1..], k - 1);
      assert run[..k][1..] == run[1..][..k - 1] && run[1..][k..] == run[k + 1..];
    } else {
      assert run[..0] == [];
    }
  }

  lemma RunHeedsLosses(env: Env, w: World, run: seq<Event>)
    requires Sound(env) && Inv(env, w) && After(env, w, run).Some?
    ensures LossesHeeded(env, w, run, After(env, w, run).value)
  {
    var w' := After(env, w, run).value;
    forall k, r | 0 <= k < |run| && AfterFirst(env, w, run, k).Some? && LossSeen(AfterFirst(env, w, run, k).value, run[k], r)
      ensures LossHeeded(env, AfterFirst(env, w, run, k).value, r, w')
    {
      AfterSplits(env, w, run, k);
      InvAlways(env, w, run[..k]);
      LostLeaseStops(env, AfterFirst(env, w, run, k).value, run[k], r, run[k + 1..], w');
    }
  }

  // ----- which heartbeats count -----

  lemma BeatStep(env: Env, w: World, e: Event, r: Ref)
    requires Enabled(env, w, e) && r in w.calls && w.calls[r].granted
    requires e.Answer? ==> FlightOk(w, e.id)
    requires !w.calls[r].phase.Claiming?
    ensures r in Next(env, w, e).calls && Next(env, w, e).calls[r].granted
    ensures Next(env, w, e).calls[r].lastBeatMs >= w.calls[r].lastBeatMs
    ensures BeatAnswered(w, e, r) && w.wire[e.id].result == Some(1) ==>
              Next(env, w, e).calls[r].lastBeatMs >= w.wire[e.id].sentMs
  {
    if Subject(w, e) != Some(r) {
      OthersUntouched(env, w, e, r);
    }
  }

  lemma {:induction false} BeatsGrow(env: Env, w: World, later: seq<Event>, r: Ref)
    requires Sound(env) && Inv(env, w) && After(env, w, later).Some? && r in w.calls && w.calls[r].granted
    ensures r in After(env, w, later).value.calls
    ensures After(env, w, later).value.calls[r].lastBeatMs >= w.calls[r].lastBeatMs
    decreases |later|
  {
    if later != [] {
      var e := later[0];
      assert e.Answer? ==> FlightOk(w, e.id);
      assert CallOk(env, w.calls[r], w.now);
      BeatStep(env, w, e, r);
      InvKept(env, w, e);
      BeatsGrow(env, Next(env, w, e), later[1..], r);
    }
  }

  /** An acknowledged heartbeat counts from when it was sent, in every later state. */
  lemma AcknowledgedBeatCounts(env: Env, w: World, e: Event, r: Ref, later: seq<Event>, w': World)
    requires Sound(env) && Inv(env, w) && Enabled(env, w, e)
    requires BeatAnswered(w, e, r) && w.wire[e.id].result == Some(1)
    requires After(env, Next(env, w, e), later) == Some(w')
    ensures r in w'.calls && w'.calls[r].lastBeatMs >= w.wire[e.id].sentMs
  {
    assert FlightOk(w, e.id) && CallOk(env, w.calls[r], w.now);
    BeatStep(env, w, e, r);
    InvKept(env, w, e);
    BeatsGrow(env, Next(env, w, e), later, r);
  }

  /** A granted call's last beat is its claim's or a heartbeat's that D1 wrote. */
  ghost predicate BeatWritten(w: World, r: Ref) {
    r in w.calls && w.calls[r].granted ==>
      || w.calls[r].lastBeatMs == w.calls[r].claimSentMs
      || exists i :: 0 <= i < |w.wire| && IsWrittenBeat(w.wire[i], r, w.calls[r].lastBeatMs)
  }

  predicate IsWrittenBeat(f: Flight, r: Ref, sentMs: int) {
    f.ref == r && f.statement.Heartbeat? && f.result == Some(1) && f.sentMs == sentMs
  }

  lemma WrittenBeatStays(env: Env, w: World, e: Event, i: nat, r: Ref, sentMs: int)
    requires Enabled(env, w, e) && i < |w.wire| && IsWrittenBeat(w.wire[i], r, sentMs)
    ensures i < |Next(env, w, e).wire| && IsWrittenBeat(Next(env, w, e).wire[i], r, sentMs)
  {
  }

  lemma BeatWrittenKept(env: Env, w: World, e: Event, r: Ref)
    requires Enabled(env, w, e) && BeatWritten(w, r)
    requires e.Answer? || e.Fail? ==> FlightOk(w, e.id)
    requires r in w.calls ==> CallOk(env, w.calls[r], w.now)
    ensures BeatWritten(Next(env, w, e), r)
  {
    var w' := Next(env, w, e);
    if r in w.calls && w.calls[r].granted {
      if i :| 0 <= i < |w.wire| && IsWrittenBeat(w.wire[i], r, w.calls[r].lastBeatMs) {
        WrittenBeatStays(env, w, e, i, r, w.calls[r].lastBeatMs);
      }
      if BeatAnswered(w, e, r) && w.wire[e.id].result == Some(1) {
        WrittenBeatStays(env, w, e, e.id, r, w.wire[e.id].sentMs);
      }
    }
    if Subject(w, e) != Some(r) {
      OthersUntouched(env, w, e, r);
    }
  }

  /** In every run the last beat a call goes by was written: none is made up. */
  lemma {:induction false} BeatsAreWritten(env: Env, w: World, run: seq<Event>, r: Ref)
    requires Sound(env) && Inv(env, w) && BeatWritten(w, r) && After(env, w, run).Some?
    ensures BeatWritten(After(env, w, run).value, r)
    decreases |run|
  {
    if run != [] {
      var e := run[0];
      assert e.Answer? || e.Fail? ==> FlightOk(w, e.id);
      BeatWrittenKept(env, w, e, r);
      InvKept(env, w, e);
      BeatsAreWritten(env, Next(env, w, e), run[1..], r);
    }
  }

  // ----- how often a call tries to release -----

  /** The release statements of `r` on the wire, whatever became of them. */
  function ReleasesSent(wire: seq<Flight>, r: Ref): nat {
    if wire == [] then 0
    else
      var last := wire[|wire| - 1];
      ReleasesSent(wire[..|wire| - 1], r) + if last.ref == r && last.statement.Release? then 1 else 0
  }

  lemma {:induction false} SameStatementsSent(wire: seq<Flight>, wire': seq<Flight>, r: Ref)
    requires |wire| == |wire'|
    requires forall j :: 0 <= j < |wire| ==> wire'[j].ref == wire[j].ref && wire'[j].statement == wire[j].statement
    ensures ReleasesSent(wire', r) == ReleasesSent(wire, r)
  {
    if wire != [] {
      SameStatementsSent(wire[..|wire| - 1], wire'[..|wire| - 1], r);
    }
  }

  lemma OneMoreSent(wire: seq<Flight>, f: Flight, r: Ref)
    ensures ReleasesSent(wire + [f], r) == ReleasesSent(wire, r) + if f.ref == r && f.statement.Release? then 1 else 0
  {
    assert (wire + [f])[..|wire|] == wire;
  }

  /** A call has sent as many releases as its phase says. */
  predicate AttemptsAt(w: World, r: Ref, sent: nat) {
    if r !in w.calls then sent == 0
    else
      match w.calls[r].phase
      case Releasing(attempt) => sent == attempt
      case Finished(released) => if released then 1 <= sent <= LEASE_RELEASE_ATTEMPTS else sent == LEASE_RELEASE_ATTEMPTS
      case _ => sent == 0
  }

  ghost predicate AttemptsOk(w: World) {
    forall r: Ref {:trigger w.calls[r]} {:trigger ReleasesSent(w.wire, r)} :: AttemptsAt(w, r, ReleasesSent(w.wire, r))
  }

  /** What an event adds to the releases `r` has sent. */
  ghost function SentBy(env: Env, w: World, e: Event, r: Ref): nat
    requires Enabled(env, w, e)
  {
    var wire := Next(env, w, e).wire;
    if |wire| > |w.wire| && wire[|w.wire|].ref == r && wire[|w.wire|].statement.Release? then 1 else 0
  }

  lemma WireGrows(env: Env, w: World, e: Event)
    requires Enabled(env, w, e)
    ensures var wire := Next(env, w, e).wire;
      && |w.wire| <= |wire| <= |w.wire| + 1
      && forall j :: 0 <= j < |w.wire| ==> wire[j].ref == w.wire[j].ref && wire[j].statement == w.wire[j].statement
  {
  }

  lemma SentIsCounted(env: Env, w: World, e: Event, r: Ref)
    requires Enabled(env, w, e)
    ensures ReleasesSent(Next(env, w, e).wire, r) == ReleasesSent(w.wire, r) + SentBy(env, w, e, r)
  {
    WireGrows(env, w, e);
    var wire := Next(env, w, e).wire;
    SameStatementsSent(w.wire, wire[..|w.wire|], r);
    if |wire| > |w.wire| {
      OneMoreSent(wire[..|w.wire|], wire[|w.wire|], r);
      assert wire == wire[..|w.wire|] + [wire[|w.wire|]];
    } else {
      assert wire == wire[..|w.wire|];
    }
  }

  lemma AttemptAnswered(env: Env, w: World, e: Event, sent: nat)
    requires e.Answer? || e.Fail?
    requires Enabled(env, w, e) && FlightOk(w, e.id)
    requires var r := w.wire[e.id].ref; AttemptsAt(w, r, sent) && CallOk(env, w.calls[r], w.now)
    ensures var r := w.wire[e.id].ref; AttemptsAt(Next(env, w, e), r, sent + SentBy(env, w, e, r))
  {
    var r := w.wire[e.id].ref;
    if e.Answer? {
      assert AttemptsAt(Next(env, w, Answer(e.id)), r, sent + SentBy(env, w, Answer(e.id), r));
    } else {
      assert AttemptsAt(Next(env, w, Fail(e.id)), r, sent + SentBy(env, w, Fail(e.id), r));
    }
  }

  lemma AttemptStep(env: Env, w: World, e: Event, r: Ref, sent: nat)
    requires Enabled(env, w, e) && AttemptsAt(w, r, sent)
    requires e.Answer? || e.Fail? ==> FlightOk(w, e.id)
    requires r in w.calls ==> CallOk(env, w.calls[r], w.now)
    ensures AttemptsAt(Next(env, w, e), r, sent + SentBy(env, w, e, r))
  {
    if Subject(w, e) != Some(r) {
      OthersUntouched(env, w, e, r);
    } else if e.Answer? || e.Fail? {
      AttemptAnswered(env, w, e, sent);
    }
  }

  lemma {:induction false} AttemptsAlways(env: Env, w: World, run: seq<Event>)
    requires Sound(env) && Inv(env, w) && AttemptsOk(w) && After(env, w, run).Some?
    ensures AttemptsOk(After(env, w, run).value)
    decreases |run|
  {
    if run != [] {
      var e := run[0];
      forall r: Ref ensures AttemptsAt(Next(env, w, e), r, ReleasesSent(Next(env, w, e).wire, r)) {
        assert e.Answer? || e.Fail? ==> FlightOk(w, e.id);
        AttemptStep(env, w, e, r, ReleasesSent(w.wire, r));
        SentIsCounted(env, w, e, r);
      }
      InvKept(env, w, e);
      AttemptsAlways(env, Next(env, w, e), run[1..]);
    }
  }

  /**
    In every run a call sends its release at most three times, and not before its action settled; it
    ends without having released only after three; and unless stopped by force it returns only after
    one of these ends, or having sent none because its claim was refused.
   */
  lemma ReleaseAttempts(env: Env, w: World, run: seq<Event>, start: int, r: Ref)
    requires Sound(env) && Reachable(env, w, run, start) && r in w.calls
    ensures var c, sent := w.calls[r], ReleasesSent(w.wire, r);
      && sent <= LEASE_RELEASE_ATTEMPTS
      && (sent > 0 && c.granted ==> c.Settled())
      && (c.phase == Finished(true) ==> sent > 0)
      && (c.phase == Finished(false) ==> sent == LEASE_RELEASE_ATTEMPTS)
      && (c.returned && c.forceStops == [] ==> (c.phase.Refused? && sent == 0) || (c.phase.Finished? && sent > 0))
  {
    StartOk(env, start);
    AttemptsAlways(env, Start(start), run);
    Reached(env, w, run, start);
    assert CallOk(env, w.calls[r], w.now) && AttemptsAt(w, r, ReleasesSent(w.wire, r));
  }

  /** A call that ends refused, and so sends no release, has a claim that D1 ran without granting it. */
  ghost predicate RefusedOk(w: World, r: Ref) {
    r in w.calls && w.calls[r].phase.Refused? ==>
      && r in w.claims && w.claims[r] < |w.wire|
      && w.wire[w.claims[r]].result.Some? && w.wire[w.claims[r]].result != Some(1)
  }

  lemma RefusedKept(env: Env, w: World, e: Event, r: Ref)
    requires Enabled(env, w, e) && RefusedOk(w, r) && ClaimOk(w, r)
    requires e.Answer? || e.Fail? ==> FlightOk(w, e.id)
    ensures RefusedOk(Next(env, w, e), r)
  {
    if e.Answer? {
      assert RefusedOk(Next(env, w, Answer(e.id)), r);
    } else if e.Fail? {
      assert RefusedOk(Next(env, w, Fail(e.id)), r);
    }
  }

  lemma {:induction false} RefusedWroteNothing(env: Env, w: World, run: seq<Event>, r: Ref)
    requires Sound(env) && Inv(env, w) && RefusedOk(w, r) && After(env, w, run).Some?
    ensures RefusedOk(After(env, w, run).value, r)
    decreases |run|
  {
    if run != [] {
      var e := run[0];
      assert e.Answer? || e.Fail? ==> FlightOk(w, e.id);
      assert ClaimOk(w, r);
      RefusedKept(env, w, e, r);
      InvKept(env, w, e);
      RefusedWroteNothing(env, Next(env, w, e), run[1..], r);
    }
  }

  // ----- the shipped clocks -----

  /** The shipped timing, with the tick's own two limits. */
  function Shipped(skewMs: int, lagMs: nat, claimLatencyMs: nat): Env {
    Env(LEASE_TIMING, skewMs, lagMs, claimLatencyMs, 600_000, 3_600_000)
  }

  /** The shipped timing, and D1's clock is not behind the isolates'. */
  predicate IsShipped(env: Env) {
    env == Shipped(env.skewMs, env.lagMs, env.claimLatencyMs) && env.skewMs >= 0
  }

  /** In every run from every start, at most one call is live besides those the operator freed. */
  ghost predicate Exclusive(env: Env) {
    forall start, run, w, a, b ::
      Reachable(env, w, run, start) && LiveHolder(w, a) && LiveHolder(w, b) ==> a == b
  }

  lemma {:induction false} AfterConcat(env: Env, w: World, one: seq<Event>, two: seq<Event>)
    requires After(env, w, one).Some?
    ensures After(env, w, one + two) == After(env, After(env, w, one).value, two)
    decreases |one|
  {
    if one == [] {
      assert one + two == two;
    } else {
      assert (one + two)[1..] == one[1..] + two;
      AfterConcat(env, Next(env, w, one[0]), one[1..], two);
    }
  }

  lemma AfterMore(env: Env, w: World, run: seq<Event>, w': World, e: Event)
    requires After(env, w, run) == Some(w') && Enabled(env, w', e)
    ensures After(env, w, run + [e]) == Some(Next(env, w', e))
  {
    AfterConcat(env, w, run, [e]);
    assert [e][1..] == [];
  }

  lemma AfterTwo(env: Env, w: World, a: Event, b: Event, w1: World)
    requires Enabled(env, w, a) && w1 == Next(env, w, a) && Enabled(env, w1, b)
    ensures After(env, w, [a, b]) == Some(Next(env, w1, b))
  {
    AfterMore(env, w, [], w, a);
    AfterMore(env, w, [] + [a], w1, b);
    assert [] + [a] + [b] == [a, b];
  }

  lemma AfterFour(env: Env, w: World, a: Event, b: Event, c: Event, d: Event, w1: World, w2: World, w3: World)
    requires Enabled(env, w, a) && w1 == Next(env, w, a) && Enabled(env, w1, b) && w2 == Next(env, w1, b)
    requires Enabled(env, w2, c) && w3 == Next(env, w2, c) && Enabled(env, w3, d)
    ensures After(env, w, [a, b, c, d]) == Some(Next(env, w3, d))
  {
    AfterTwo(env, w, a, b, w1);
    AfterTwo(env, w2, c, d, w3);
    AfterConcat(env, w, [a, b], [c, d]);
    assert [a, b] + [c, d] == [a, b, c, d];
  }

  /** The call 1 whose claim, written at 0, was answered at `claimedAt`; no heartbeat of it was written since. */
  function SilentCall(claimedAt: int, nextBeatAt: int): Call {
    Call(Running, 0, 0, true, claimedAt, 0, nextBeatAt, Some(claimedAt + 780_000), None, None, [], false, false)
  }

  function Silent(env: Env, now: int, claimedAt: int, nextBeatAt: int, beats: seq<Flight>): World {
    World(now, Row(Some(1), Some(0), Some(env.skewMs)), map[1 := SilentCall(claimedAt, nextBeatAt)],
          [Flight(1, Claim(0), 0, Some(1), false)] + beats, map[1 := 0], {}, {})
  }

  ghost predicate IsSilent(env: Env, w: World, claimedAt: int, nextBeatAt: int, beats: seq<Flight>) {
    w == Silent(env, w.now, claimedAt, nextBeatAt, beats) && w.now <= nextBeatAt + env.lagMs && claimedAt <= w.now
  }

  lemma ClaimIsGranted(env: Env, answeredAt: nat) returns (run: seq<Event>, w: World)
    requires IsShipped(env) && answeredAt <= env.claimLatencyMs
    ensures After(env, Start(0), run) == Some(w) && w == Silent(env, answeredAt, answeredAt, answeredAt + 60_000, [])
  {
    var sent := [Begin(1), SendClaim(1), Apply(0), Advance(answeredAt)];
    var w1 := Next(env, Start(0), Begin(1));
    var w2 := Next(env, w1, SendClaim(1));
    var w3 := Next(env, w2, Apply(0));
    AfterFour(env, Start(0), Begin(1), SendClaim(1), Apply(0), Advance(answeredAt), w1, w2, w3);
    var w4 := Next(env, w3, Advance(answeredAt));
    AfterMore(env, Start(0), sent, w4, Answer(0));
    run, w := sent + [Answer(0)], Next(env, w4, Answer(0));
  }

  /** A tick at 179.999 s that finds nothing amiss yet puts the next one off to a minute later. */
  lemma BeatIsPutOff(env: Env) returns (run: seq<Event>, w: World)
    requires IsShipped(env) && env.lagMs >= 119_999
    ensures After(env, Silent(env, 0, 0, 60_000, []), run) == Some(w)
    ensures w == Silent(env, 179_999, 0, 239_999, [Flight(1, Heartbeat, 179_999, None, true)])
  {
    run := [Advance(179_999), BeatTimer(1)];
    var w0 := Silent(env, 0, 0, 60_000, []);
    var w1 := Next(env, w0, Advance(179_999));
    AfterTwo(env, w0, Advance(179_999), BeatTimer(1), w1);
    w := Next(env, w1, BeatTimer(1));
  }

  /** Call 1 aborted at `abortedAt` and is live until it is stopped by force. */
  function Aborted(env: Env, abortedAt: int, claimedAt: int, beats: seq<Flight>): World {
    World(abortedAt, Row(Some(1), Some(0), Some(env.skewMs)),
          map[1 := SilentCall(claimedAt, abortedAt + 60_000).(aborted := Some(ForceStop(LeaseLost, abortedAt)),
                                                              forceAt := Some(abortedAt + 30_000))],
          [Flight(1, Claim(0), 0, Some(1), false)] + beats + [Flight(1, Heartbeat, abortedAt, None, true)],
          map[1 := 0], {}, {})
  }

  /** The tick freed the row of the aborted call. */
  function Overtaken(env: Env, now: int, abortedAt: int, claimedAt: int, beats: seq<Flight>): World {
    Aborted(env, abortedAt, claimedAt, beats).(now := now, row := FREE, freedByTick := {1})
  }

  lemma SilentAborts(env: Env, w: World, claimedAt: nat, nextBeatAt: int, beats: seq<Flight>, at: int)
    requires IsShipped(env) && IsSilent(env, w, claimedAt, nextBeatAt, beats)
    requires w.now <= at && nextBeatAt <= at <= nextBeatAt + env.lagMs && at <= claimedAt + 780_000 && at >= 180_000
    ensures After(env, w, [Advance(at), BeatTimer(1)]) == Some(Aborted(env, at, claimedAt, beats))
  {
    var w1 := Next(env, w, Advance(at));
    assert Next(env, w1, BeatTimer(1)) == Aborted(env, at, claimedAt, beats);
    AfterTwo(env, w, Advance(at), BeatTimer(1), w1);
  }

  lemma AbortedIsOvertaken(env: Env, at: int, claimedAt: nat, beats: seq<Flight>, end: int)
    requires IsShipped(env) && at <= end <= at + 30_000 + env.lagMs && end <= claimedAt + 780_000 + env.lagMs
    requires end > 600_000
    ensures After(env, Aborted(env, at, claimedAt, beats), [Advance(end), Tick]) == Some(Overtaken(env, end, at, claimedAt, beats))
  {
    var w := Aborted(env, at, claimedAt, beats);
    var w1 := Next(env, w, Advance(end));
    assert Next(env, w1, Tick) == Overtaken(env, end, at, claimedAt, beats);
    AfterTwo(env, w, Advance(end), Tick, w1);
  }

  lemma SecondClaimIsGranted(env: Env, now: int, at: int, claimedAt: int, beats: seq<Flight>)
    returns (run: seq<Event>, w: World)
    requires IsShipped(env)
    ensures After(env, Overtaken(env, now, at, claimedAt, beats), run) == Some(w)
    ensures LiveHolder(w, 1) && LiveHolder(w, 2)
  {
    var w0 := Overtaken(env, now, at, claimedAt, beats);
    var i := |w0.wire|;
    run := [Begin(2), SendClaim(2), Apply(i), Answer(i)];
    var w1 := Next(env, w0, Begin(2));
    var w2 := Next(env, w1, SendClaim(2));
    var w3 := Next(env, w2, Apply(i));
    AfterFour(env, w0, Begin(2), SendClaim(2), Apply(i), Answer(i), w1, w2, w3);
    w := Next(env, w3, Answer(i));
  }

  /** The next tick and the force stop come as late as they may, and the row goes stale in between. */
  lemma SilentOverlaps(env: Env, run: seq<Event>, w: World, claimedAt: nat, nextBeatAt: int, beats: seq<Flight>)
    requires IsShipped(env) && IsSilent(env, w, claimedAt, nextBeatAt, beats) && w.now <= nextBeatAt <= claimedAt + 239_999
    requires nextBeatAt >= 180_000 && nextBeatAt + 2 * env.lagMs + 30_000 > 600_000
    requires After(env, Start(0), run) == Some(w)
    ensures !Exclusive(env)
  {
    var at := Max(nextBeatAt, 570_001 - env.lagMs);
    var end := Max(at, 600_001);
    var abort, free := [Advance(at), BeatTimer(1)], [Advance(end), Tick];
    SilentAborts(env, w, claimedAt, nextBeatAt, beats, at);
    AbortedIsOvertaken(env, at, claimedAt, beats, end);
    var last, w' := SecondClaimIsGranted(env, end, at, claimedAt, beats);
    AfterConcat(env, Start(0), run, abort);
    AfterConcat(env, Start(0), run + abort, free);
    AfterConcat(env, Start(0), run + abort + free, last);
    assert Reachable(env, w', run + abort + free + last, 0);
  }

  /** A claim answered late, or timers that fire late, let two calls run at once. */
  lemma LateOverlaps(env: Env)
    requires IsShipped(env) && Max(180_000, env.claimLatencyMs) + 2 * env.lagMs > 510_000
    ensures !Exclusive(env)
  {
    if env.claimLatencyMs >= 180_000 {
      var run, w := ClaimIsGranted(env, env.claimLatencyMs);
      SilentOverlaps(env, run, w, env.claimLatencyMs, env.claimLatencyMs + 60_000, []);
    } else {
      var run, w := ClaimIsGranted(env, 0);
      var more, w1 := BeatIsPutOff(env);
      AfterConcat(env, Start(0), run, more);
      SilentOverlaps(env, run + more, w1, 0, 239_999, [Flight(1, Heartbeat, 179_999, None, true)]);
    }
  }

  /**
    With the shipped clocks the lease excludes in every run, whatever the skew, if the longer of the
    heartbeat loss and the claim's latency, and twice the timers' lag, fit into 8.5 minutes; and unless
    D1's clock is behind, only then.
   */
  lemma ShippedLeaseExcludesIff(skewMs: int, lagMs: nat, claimLatencyMs: nat)
    ensures Max(180_000, claimLatencyMs) + 2 * lagMs <= 510_000 ==> Exclusive(Shipped(skewMs, lagMs, claimLatencyMs))
    ensures skewMs >= 0 && Exclusive(Shipped(skewMs, lagMs, claimLatencyMs)) ==>
              Max(180_000, claimLatencyMs) + 2 * lagMs <= 510_000
  {
    var env := Shipped(skewMs, lagMs, claimLatencyMs);
    if Max(180_000, claimLatencyMs) + 2 * lagMs <= 510_000 {
      forall start, run, w, a, b | Reachable(env, w, run, start) && LiveHolder(w, a) && LiveHolder(w, b)
        ensures a == b
      {
        MutualExclusion(env, w, run, start, a, b);
      }
    } else if skewMs >= 0 {
      LateOverlaps(env);
    }
  }
}
