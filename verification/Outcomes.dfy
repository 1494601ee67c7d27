/** How a run can end, what each ending says of the bucket, and what follows from that for every run. */
module Outcomes {
  import opened Bucket
  import opened BucketRuns
  import opened Checkpoints
  import opened Manifest
  import opened ManifestNormal
  import opened TerminalPlan
  import opened Wrappers

  /** Why an artifact could not be stored. */
  datatype PutProblem =
    | BadObject(problem: ObjectProblem)
    | ObjectChecksumRejected | ObjectPutFailed | MultipartCreateFailed | MultipartIncomplete

  predicate PersistedAs(p: PersistedObject, a: PlanArtifact, key: string, byteSize: nat) {
    p.artifactKey == a.artifactKey && p.key == key && p.sha256 == a.sha256 && p.byteSize == byteSize
  }

  /** Why a run's existing terminal is not taken for this one; it cannot have vanished. */
  datatype ConflictReason = TerminalDigestMismatch | TerminalBlocked(why: BlockReason)

  datatype IncompleteReason =
    | ArtifactSizeMismatch | ArtifactDigestMismatch | ArtifactFailed(why: PutProblem) | TerminalPutFailed

  datatype PersistResult =
    | Persisted(checkpoint: Checkpoint, done: seq<PersistedObject>)
    | AlreadyPersisted(checkpoint: Checkpoint, done: seq<PersistedObject>)
    | Conflict(storedDigest: Option<string>, conflict: ConflictReason)
    | Incomplete(reason: IncompleteReason, failed: Option<string>, checkpoint: Checkpoint, done: seq<PersistedObject>)

  function PlannedBody(plan: Plan, a: Artifact): Bytes {
    var found := FindPlanned(plan.artifacts, a.artifactKey);
    if found.Some? then BodyBytes(found.value.body) else []
  }

  /** The plan has the artifact, under its own digest's key, with a body among the texts of the run. */
  predicate Backed(s: Setting, plan: Plan, a: Artifact) {
    Planned(plan, a) && Addressed(a) && PlannedBody(plan, a) in s.texts
  }

  ghost predicate AllBacked(s: Setting, plan: Plan, artifacts: seq<Artifact>) {
    forall i :: 0 <= i < |artifacts| ==> Backed(s, plan, artifacts[i])
  }

  /** Whose fault it is that the artifact could not be stored: the plan's, an earlier object's, or the bucket's. */
  predicate Blamed(s: Setting, plan: Plan, a: Artifact, reason: IncompleteReason, faulted: bool) {
    match reason
    case ArtifactSizeMismatch => |PlannedBody(plan, a)| != a.byteSize
    case ArtifactDigestMismatch => s.codec.hash(PlannedBody(plan, a)) != a.sha256
    case ArtifactFailed(_) => faulted || a.storageRef.key in s.start || s.codec.hash(PlannedBody(plan, a)) != a.sha256
    case TerminalPutFailed => false
  }

  /** The artifact's body is of the size and digest the plan declares, and its key was not taken beforehand. */
  predicate Honest(s: Setting, plan: Plan, a: Artifact) {
    && |PlannedBody(plan, a)| == a.byteSize
    && s.codec.hash(PlannedBody(plan, a)) == a.sha256
    && a.storageRef.key !in s.start
  }

  // ----- the bodies a run hashes -----

  /** Whether the run hashes this artifact's body itself: unless told not to, and for a body in parts always. */
  predicate Hashed(plan: Plan, a: Artifact, verifyBodyDigest: bool) {
    var found := FindPlanned(plan.artifacts, a.artifactKey);
    verifyBodyDigest || (found.Some? && found.value.body.Parts?)
  }

  predicate RightSize(plan: Plan, a: Artifact) {
    |PlannedBody(plan, a)| == a.byteSize
  }

  /** The body has the declared size and, if the run hashes it, the declared digest. */
  predicate BodyOk(s: Setting, plan: Plan, a: Artifact, verifyBodyDigest: bool) {
    RightSize(plan, a) && (Hashed(plan, a, verifyBodyDigest) ==> s.codec.hash(PlannedBody(plan, a)) == a.sha256)
  }

  ghost predicate BodiesOk(s: Setting, plan: Plan, artifacts: seq<Artifact>, n: nat, verifyBodyDigest: bool) {
    forall i :: 0 <= i < |artifacts| && i < n ==> BodyOk(s, plan, artifacts[i], verifyBodyDigest)
  }

  /** The reason given for an artifact says that its body is wrong exactly when it is. */
  predicate BodyReason(s: Setting, plan: Plan, a: Artifact, verifyBodyDigest: bool, reason: IncompleteReason) {
    && (reason.ArtifactSizeMismatch? <==> !RightSize(plan, a))
    && (reason.ArtifactDigestMismatch? <==> RightSize(plan, a) && !BodyOk(s, plan, a, verifyBodyDigest))
  }

  /** The one write that stores an artifact's body. */
  function WriteOf(plan: Plan, a: Artifact): Write {
    var found := FindPlanned(plan.artifacts, a.artifactKey);
    if found.Some? && found.value.body.Parts? then CompleteObject(PlannedBody(plan, a)) else PutObject(PlannedBody(plan, a))
  }

  /** The writes of the artifacts done that were not there already. */
  function NewWrites(plan: Plan, artifacts: seq<Artifact>, done: seq<PersistedObject>): seq<Write>
    requires |done| <= |artifacts|
  {
    if done == [] then []
    else
      var n := |done| - 1;
      NewWrites(plan, artifacts, done[..n]) + if done[n].reused then [] else [WriteOf(plan, artifacts[n])]
  }

  predicate AddsAtMost(before: seq<Write>, after: seq<Write>, w: Write) {
    after == before || after == before + [w]
  }

  /** The run stops at this artifact: a wrong body is named as such, before anything is written for it. */
  predicate StopsAt(s: Setting, plan: Plan, a: Artifact, verifyBodyDigest: bool, reason: IncompleteReason,
                    before: seq<Write>, own: seq<Write>)
  {
    && BodyReason(s, plan, a, verifyBodyDigest, reason)
    && AddsAtMost(before, own, WriteOf(plan, a))
    && (!BodyOk(s, plan, a, verifyBodyDigest) ==> own == before)
  }

  /** What an ending that went through the artifacts says of their bodies and of the run's own writes. */
  ghost predicate BodiesDecide(s: Setting, plan: Plan, m: TerminalManifest, verifyBodyDigest: bool, r: PersistResult,
                               before: seq<Write>, own: seq<Write>)
  {
    var artifacts := m.lists.artifacts;
    match r
    case Persisted(_, done) =>
      && BodiesOk(s, plan, artifacts, |artifacts|, verifyBodyDigest)
      && |done| == |artifacts| && own == before + NewWrites(plan, artifacts, done) + [PutTerminal(m)]
    case AlreadyPersisted(_, done) =>
      && BodiesOk(s, plan, artifacts, |artifacts|, verifyBodyDigest)
      && |done| == |artifacts| && own == before + NewWrites(plan, artifacts, done)
    case Conflict(_, _) => BodiesOk(s, plan, artifacts, |artifacts|, verifyBodyDigest)
    case Incomplete(reason, failed, _, done) =>
      && |done| <= |artifacts| && BodiesOk(s, plan, artifacts, |done|, verifyBodyDigest)
      && (failed.None? ==>
            && |done| == |artifacts|
            && AddsAtMost(before + NewWrites(plan, artifacts, done), own, PutTerminal(m)))
      && (failed.Some? ==>
            && |done| < |artifacts|
            && StopsAt(s, plan, artifacts[|done|], verifyBodyDigest, reason, before + NewWrites(plan, artifacts, done), own))
  }

  /** The run ended at a terminal that was there before it touched an artifact, or its bodies decided. */
  ghost predicate BodiesAccounted(s: Setting, plan: Plan, m: TerminalManifest, verifyBodyDigest: bool, r: PersistResult,
                                  before: seq<Write>, own: seq<Write>, calls: int)
  {
    || (own == before && calls == 1 && (r.AlreadyPersisted? || r.Conflict?))
    || BodiesDecide(s, plan, m, verifyBodyDigest, r, before, own)
  }

  /** The reader finds a terminal with this digest. */
  predicate HoldsDigest(c: Codec, objects: Objects, key: string, digest: string) {
    var r := ReadTerminalAt(c, objects, key);
    r.Found? && r.digest == digest
  }

  /** The stored terminal has another digest, or the reader blocks it, or its body could not be read. */
  predicate ConflictStands(c: Codec, objects: Objects, key: string, digest: string, storedDigest: Option<string>,
                           conflict: ConflictReason, faulted: bool)
  {
    match conflict
    case TerminalDigestMismatch =>
      storedDigest.Some? && storedDigest.value != digest && HoldsDigest(c, objects, key, storedDigest.value)
    case TerminalBlocked(why) =>
      && storedDigest == None
      && (ReadTerminalAt(c, objects, key) == Blocked(why) || (faulted && why == TerminalUnreadable))
  }

  ghost predicate Succeeded(r: PersistResult) {
    r.Persisted? || r.AlreadyPersisted?
  }

  predicate VerifiedUpTo(objects: Objects, artifacts: seq<Artifact>, n: nat) {
    forall i :: 0 <= i < |artifacts| && i < n ==> VerifiedAt(objects, artifacts[i])
  }

  /** What a result says of the bucket it was reached in. */
  ghost predicate Justified(s: Setting, objects: Objects, plan: Plan, m: TerminalManifest, r: PersistResult, faulted: bool) {
    var key, artifacts := TerminalKeyOf(m), m.lists.artifacts;
    match r
    case Persisted(checkpoint, done) =>
      && Lookup(objects, key) == Some(TerminalObject(s.codec, m))
      && AllVerified(objects, artifacts)
      && Follows(done, artifacts) && |done| == |artifacts| && checkpoint == CheckpointOf(m, done, true)
    case AlreadyPersisted(checkpoint, done) =>
      && HoldsDigest(s.codec, objects, key, Digest(s.codec, m))
      && Follows(done, artifacts) && |done| == |artifacts| && checkpoint == CheckpointOf(m, done, true)
    case Conflict(storedDigest, conflict) =>
      key in objects && ConflictStands(s.codec, objects, key, Digest(s.codec, m), storedDigest, conflict, faulted)
    case Incomplete(reason, failed, checkpoint, done) =>
      && VerifiedUpTo(objects, artifacts, |done|)
      && Follows(done, artifacts) && checkpoint == CheckpointOf(m, done, false)
      && (if failed.None? then reason == TerminalPutFailed && faulted && |done| == |artifacts|
          else StoppedAt(s, plan, artifacts, |done|, failed.value, reason, faulted))
  }

  predicate StoppedAt(s: Setting, plan: Plan, artifacts: seq<Artifact>, i: nat, failed: string, reason: IncompleteReason,
                      faulted: bool)
  {
    i < |artifacts| && failed == artifacts[i].artifactKey && Blamed(s, plan, artifacts[i], reason, faulted)
  }

  ghost predicate AllHonest(s: Setting, plan: Plan, artifacts: seq<Artifact>) {
    forall i :: 0 <= i < |artifacts| ==> Honest(s, plan, artifacts[i])
  }

  /** The run fits the reader, and nothing was stored under its terminal's key beforehand. */
  predicate Readable(s: Setting, m: TerminalManifest) {
    && s.codec.normal(m)
    && s.codec.encode(m) in s.texts
    && |s.codec.encode(m)| <= MAX_TERMINAL_BYTES
    && TerminalKeyOf(m) !in s.start
  }

  /** An honest plan for a readable run. */
  ghost predicate MustSucceed(s: Setting, plan: Plan, m: TerminalManifest) {
    Readable(s, m) && AllHonest(s, plan, m.lists.artifacts)
  }

  /** The reader finds exactly this manifest's terminal, and every object it names passes the check. */
  ghost predicate Sealed(s: Setting, objects: Objects, m: TerminalManifest) {
    ReadTerminalAt(s.codec, objects, TerminalKeyOf(m)) == OwnTerminal(s, m) && AllVerified(objects, m.lists.artifacts)
  }

  lemma HoldingSeals(s: Setting, log: seq<Write>, m: TerminalManifest)
    requires Run(s, log) && Readable(s, m)
    requires HoldsDigest(s.codec, Replay(s, log), TerminalKeyOf(m), Digest(s.codec, m))
    ensures Sealed(s, Replay(s, log), m) && !RivalWrote(s, log, m)
  {
    var key := TerminalKeyOf(m);
    NormalIdentity(s, m);
    TerminalsParse(m, key);
    var winner := StoredTerminalIsComplete(s, log, key);
    ReaderFinds(s, key, winner);
    DigestsTellApart(s, m, winner);
    OwnDigestIffNoRival(s, log, m);
  }

  /** A success means the run's terminal and every object it names are there, and no other terminal ever was. */
  lemma SuccessSeals(s: Setting, log: seq<Write>, plan: Plan, m: TerminalManifest, r: PersistResult, faulted: bool)
    requires Run(s, log) && Readable(s, m)
    requires Justified(s, Replay(s, log), plan, m, r, faulted) && Succeeded(r)
    ensures Sealed(s, Replay(s, log), m) && !RivalWrote(s, log, m)
  {
    if r.Persisted? {
      NormalIdentity(s, m);
      ReaderFinds(s, TerminalKeyOf(m), m);
    }
    HoldingSeals(s, log, m);
  }

  /** What was sealed stays sealed in every later state. */
  lemma SealLasts(s: Setting, log: seq<Write>, n: nat, m: TerminalManifest)
    requires Run(s, log) && n <= |log| && Sealed(s, Replay(s, log[..n]), m)
    ensures Sealed(s, Replay(s, log), m)
  {
    NothingIsLost(s, log, n);
    AllVerifiedStays(Replay(s, log[..n]), Replay(s, log), m.lists.artifacts);
    OneDigestWins(s, log, n, TerminalKeyOf(m));
  }

  /**
    A conflict means that another manifest's terminal won the run, unless it says that the stored
    terminal's body could not be read: writers that share one plan meet no other conflict.
  */
  lemma ConflictNeedsRival(s: Setting, log: seq<Write>, plan: Plan, m: TerminalManifest, r: PersistResult, faulted: bool)
    requires Run(s, log) && Readable(s, m)
    requires Justified(s, Replay(s, log), plan, m, r, faulted)
    requires r.Conflict? && r.conflict != TerminalBlocked(TerminalUnreadable)
    ensures RivalWrote(s, log, m)
  {
    OwnDigestIffNoRival(s, log, m);
  }

  /** That exception is real: over a sealed run, with no rival, a body that cannot be read makes this conflict. */
  lemma UnreadableBodyConflicts(s: Setting, log: seq<Write>, plan: Plan, m: TerminalManifest)
    requires Run(s, log) && Readable(s, m) && Sealed(s, Replay(s, log), m)
    ensures !RivalWrote(s, log, m)
    ensures Justified(s, Replay(s, log), plan, m, Conflict(None, TerminalBlocked(TerminalUnreadable)), true)
  {
    HoldingSeals(s, log, m);
  }

  /**
    A writer that finds its own terminal meets a conflict, faults aside, exactly when the terminal is
    over the reader's limit.
   */
  lemma OwnTerminalIsHeldIff(s: Setting, log: seq<Write>, plan: Plan, m: TerminalManifest)
    requires Run(s, log) && s.codec.normal(m) && s.codec.encode(m) in s.texts
    requires Lookup(Replay(s, log), TerminalKeyOf(m)) == Some(TerminalObject(s.codec, m))
    ensures HoldsDigest(s.codec, Replay(s, log), TerminalKeyOf(m), Digest(s.codec, m)) <==>
              |s.codec.encode(m)| <= MAX_TERMINAL_BYTES
    ensures Justified(s, Replay(s, log), plan, m, Conflict(None, TerminalBlocked(TerminalTooLarge)), false) <==>
              |s.codec.encode(m)| > MAX_TERMINAL_BYTES
  {
    NormalIdentity(s, m);
    ReaderFinds(s, TerminalKeyOf(m), m);
  }

  /**
    Without faults, and with honest bodies, a run of a readable manifest always ends, and ends in a
    conflict exactly when another manifest's terminal was put first.
  */
  lemma OutcomeIsDecided(s: Setting, log: seq<Write>, plan: Plan, m: TerminalManifest, r: PersistResult)
    requires Run(s, log) && MustSucceed(s, plan, m)
    requires Justified(s, Replay(s, log), plan, m, r, false)
    ensures Succeeded(r) <==> !RivalWrote(s, log, m)
    ensures r.Conflict? <==> RivalWrote(s, log, m)
  {
    IncompleteIsNotHonest(s, Replay(s, log), plan, m, r);
    if Succeeded(r) {
      SuccessSeals(s, log, plan, m, r, false);
    } else {
      OwnDigestIffNoRival(s, log, m);
    }
  }

  /** Without a fault only a body that is not as declared, or a key taken beforehand, leaves a run incomplete. */
  lemma IncompleteIsNotHonest(s: Setting, objects: Objects, plan: Plan, m: TerminalManifest, r: PersistResult)
    requires Justified(s, objects, plan, m, r, false)
    ensures r.Incomplete? ==> !AllHonest(s, plan, m.lists.artifacts)
  {
    if r.Incomplete? && r.failed.Some? {
      assert !Honest(s, plan, m.lists.artifacts[|r.done|]);
    }
  }

  /**
    A run that goes through its artifacts never gets past a body of another size, nor past one of another
    digest if it was to hash bodies or the body comes in parts; without a fault, and with honest bodies
    before it, it ends exactly there, for that reason, with nothing written for it.
   */
  lemma WrongBodyEndsTheRun(s: Setting, objects: Objects, plan: Plan, m: TerminalManifest, verifyBodyDigest: bool,
                            r: PersistResult, before: seq<Write>, own: seq<Write>, i: nat)
    requires BodiesDecide(s, plan, m, verifyBodyDigest, r, before, own)
    requires i < |m.lists.artifacts| && Planned(plan, m.lists.artifacts[i])
    requires var a := m.lists.artifacts[i];
      || |PlannedBody(plan, a)| != a.byteSize
      || (&& s.codec.hash(PlannedBody(plan, a)) != a.sha256
          && (verifyBodyDigest || FindPlanned(plan.artifacts, a.artifactKey).value.body.Parts?))
    ensures r.Incomplete? && r.failed.Some? && |r.done| <= i
    ensures |r.done| == i ==>
              && own == before + NewWrites(plan, m.lists.artifacts, r.done)
              && r.reason == if |PlannedBody(plan, m.lists.artifacts[i])| == m.lists.artifacts[i].byteSize
                             then ArtifactDigestMismatch else ArtifactSizeMismatch
    ensures Justified(s, objects, plan, m, r, false) && AllHonest(s, plan, m.lists.artifacts[..i]) ==> |r.done| == i
  {
    if r.Incomplete? && |r.done| < i {
      assert m.lists.artifacts[..i][|r.done|] == m.lists.artifacts[|r.done|];
    }
  }

  lemma EndingHolds(s: Setting, log: seq<Write>, plan: Plan, m: TerminalManifest, r: PersistResult, faulted: bool)
    requires Run(s, log) && Justified(s, Replay(s, log), plan, m, r, faulted)
    ensures Succeeded(r) && Readable(s, m) ==> Sealed(s, Replay(s, log), m)
    ensures !faulted && MustSucceed(s, plan, m) ==> (Succeeded(r) <==> !RivalWrote(s, log, m))
  {
    if Succeeded(r) && Readable(s, m) {
      SuccessSeals(s, log, plan, m, r, faulted);
    }
    if !faulted && MustSucceed(s, plan, m) {
      OutcomeIsDecided(s, log, plan, m, r);
    }
  }
}
