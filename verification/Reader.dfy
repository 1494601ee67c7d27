/** Re-checking, against a bucket that others write to, every object a terminal names. */
module Reader {
  import opened Bucket
  import opened BucketRuns
  import opened Manifest
  import opened Outcomes
  import TerminalPlan
  import opened Wrappers
  import opened Writer

  datatype ArtifactProblem = ArtifactProblem(artifactKey: string, key: string, reason: ObjectProblem,
                                             expectedSha256: string, expectedByteSize: nat, observedByteSize: Option<nat>)

  /** What hashing the body says of an object that its metadata cannot vouch for. */
  function HashedProblem(c: Codec, body: Option<Stored>, a: Artifact): Option<ObjectProblem> {
    if body.None? then Some(ObjectMissing)
    else if |body.value.bytes| != a.byteSize then Some(ObjectSizeMismatch)
    else if c.hash(body.value.bytes) == a.sha256 then None
    else Some(ObjectHashMismatch)
  }

  function ProblemAt(c: Codec, objects: Objects, a: Artifact, streamHash: bool): Option<ObjectProblem> {
    var head := Lookup(objects, a.storageRef.key);
    var problem := VerifyStoredObject(head, a.sha256, a.byteSize);
    if problem == Some(ObjectDigestUnverifiable) && streamHash then HashedProblem(c, head, a) else problem
  }

  /** An artifact that checks out once checks out for ever. */
  lemma CheckStays(c: Codec, before: Objects, after: Objects, a: Artifact, streamHash: bool)
    requires KeptAt(before, after, a.storageRef.key)
    requires ProblemAt(c, before, a, streamHash) == None
    ensures ProblemAt(c, after, a, streamHash) == None
  {
  }

  /** The problem is this artifact's, as the bucket was then. */
  predicate ProblemOf(c: Codec, objects: Objects, a: Artifact, p: ArtifactProblem, streamHash: bool) {
    && p.artifactKey == a.artifactKey && p.key == a.storageRef.key
    && p.expectedSha256 == a.sha256 && p.expectedByteSize == a.byteSize
    && ProblemAt(c, objects, a, streamHash) == Some(p.reason)
    && p.observedByteSize == (if p.key in objects then Some(|objects[p.key].bytes|) else None)
  }

  predicate SeenAt(s: Setting, log: seq<Write>, n: int, artifacts: seq<Artifact>, i: int, p: ArtifactProblem, streamHash: bool) {
    0 <= n <= |log| && 0 <= i < |artifacts| && ProblemOf(s.codec, Replay(s, log[..n]), artifacts[i], p, streamHash)
  }

  /** The problem was there, of one of the artifacts, at some moment from `from` on. */
  ghost predicate TrueProblem(s: Setting, log: seq<Write>, from: nat, artifacts: seq<Artifact>, p: ArtifactProblem,
                              streamHash: bool)
  {
    exists n, i :: from <= n && SeenAt(s, log, n, artifacts, i, p, streamHash)
  }

  ghost predicate TrueProblems(s: Setting, log: seq<Write>, from: nat, artifacts: seq<Artifact>,
                               problems: seq<ArtifactProblem>, streamHash: bool)
  {
    forall j :: 0 <= j < |problems| ==> TrueProblem(s, log, from, artifacts, problems[j], streamHash)
  }

  ghost predicate ChecksOut(c: Codec, objects: Objects, artifacts: seq<Artifact>, n: nat, streamHash: bool) {
    forall i :: 0 <= i < |artifacts| && i < n ==> ProblemAt(c, objects, artifacts[i], streamHash) == None
  }

  lemma ChecksOutStays(c: Codec, before: Objects, after: Objects, artifacts: seq<Artifact>, n: nat, streamHash: bool)
    requires Kept(before, after) && ChecksOut(c, before, artifacts, n, streamHash)
    ensures ChecksOut(c, after, artifacts, n, streamHash)
  {
    forall i | 0 <= i < |artifacts| && i < n ensures ProblemAt(c, after, artifacts[i], streamHash) == None {
      assert KeptAt(before, after, artifacts[i].storageRef.key);
      CheckStays(c, before, after, artifacts[i], streamHash);
    }
  }

  lemma StillTrue(s: Setting, log: seq<Write>, later: seq<Write>, from: nat, artifacts: seq<Artifact>,
                  problems: seq<ArtifactProblem>, streamHash: bool)
    requires log <= later && TrueProblems(s, log, from, artifacts, problems, streamHash)
    ensures TrueProblems(s, later, from, artifacts, problems, streamHash)
  {
    forall j | 0 <= j < |problems| ensures TrueProblem(s, later, from, artifacts, problems[j], streamHash) {
      assert TrueProblem(s, log, from, artifacts, problems[j], streamHash);
      var n, i :| from <= n && SeenAt(s, log, n, artifacts, i, problems[j], streamHash);
      assert later[..n] == log[..n];
      assert SeenAt(s, later, n, artifacts, i, problems[j], streamHash);
    }
  }

  lemma OneMoreProblem(s: Setting, log: seq<Write>, from: nat, artifacts: seq<Artifact>, problems: seq<ArtifactProblem>,
                       i: nat, p: ArtifactProblem, streamHash: bool)
    requires from <= |log| && TrueProblems(s, log, from, artifacts, problems, streamHash)
    requires i < |artifacts| && ProblemOf(s.codec, Replay(s, log), artifacts[i], p, streamHash)
    ensures TrueProblems(s, log, from, artifacts, problems + [p], streamHash)
  {
    assert log[..|log|] == log;
    assert SeenAt(s, log, |log|, artifacts, i, p, streamHash);
  }

  /** A problem seen later means that the artifact did not check out before. */
  lemma ProblemRefutes(s: Setting, log: seq<Write>, from: nat, artifacts: seq<Artifact>, p: ArtifactProblem, streamHash: bool)
    requires Run(s, log) && from <= |log| && TrueProblem(s, log, from, artifacts, p, streamHash)
    ensures !ChecksOut(s.codec, Replay(s, log[..from]), artifacts, |artifacts|, streamHash)
  {
    var n, i :| from <= n && SeenAt(s, log, n, artifacts, i, p, streamHash);
    PrefixIsPossible(s, log, n);
    NothingIsLost(s, log[..n], from);
    assert log[..n][..from] == log[..from];
    var before, after := Replay(s, log[..from]), Replay(s, log[..n]);
    assert KeptAt(before, after, artifacts[i].storageRef.key);
    if ProblemAt(s.codec, before, artifacts[i], streamHash) == None {
      CheckStays(s.codec, before, after, artifacts[i], streamHash);
    }
  }

  /** How far the re-check has come: all true problems so far, or none and everything so far checks out. */
  ghost predicate Progress(s: Setting, log: seq<Write>, from: nat, artifacts: seq<Artifact>, checked: nat,
                           problems: seq<ArtifactProblem>, streamHash: bool)
  {
    && TrueProblems(s, log, from, artifacts, problems, streamHash)
    && (problems == [] ==> ChecksOut(s.codec, Replay(s, log), artifacts, checked, streamHash))
  }

  function Extended(problems: seq<ArtifactProblem>, found: Option<ArtifactProblem>): seq<ArtifactProblem> {
    if found.None? then problems else problems + [found.value]
  }

  lemma ProgressStep(s: Setting, log: seq<Write>, later: seq<Write>, from: nat, artifacts: seq<Artifact>, checked: nat,
                     problems: seq<ArtifactProblem>, found: Option<ArtifactProblem>, streamHash: bool)
    requires from <= |log| && log <= later && Kept(Replay(s, log), Replay(s, later))
    requires Progress(s, log, from, artifacts, checked, problems, streamHash) && checked < |artifacts|
    requires if found.None? then ProblemAt(s.codec, Replay(s, later), artifacts[checked], streamHash) == None
             else ProblemOf(s.codec, Replay(s, later), artifacts[checked], found.value, streamHash)
    ensures Progress(s, later, from, artifacts, checked + 1, Extended(problems, found), streamHash)
  {
    StillTrue(s, log, later, from, artifacts, problems, streamHash);
    if found.Some? {
      OneMoreProblem(s, later, from, artifacts, problems, checked, found.value, streamHash);
    } else if problems == [] {
      ChecksOutStays(s.codec, Replay(s, log), Replay(s, later), artifacts, checked, streamHash);
    }
  }

  /** One artifact: its object's metadata, and its body when the metadata cannot tell. */
  method CheckArtifact(bucket: R2Bucket, a: Artifact, streamHash: bool) returns (found: Option<ArtifactProblem>)
    requires bucket.Valid()
    modifies bucket`objects, bucket`log, bucket`calls, bucket`faults
    ensures bucket.Valid() && old(bucket.log) <= bucket.log && Kept(old(bucket.objects), bucket.objects)
    ensures found.None? ==> ProblemAt(bucket.s.codec, bucket.objects, a, streamHash) == None
    ensures found.Some? ==> ProblemOf(bucket.s.codec, bucket.objects, a, found.value, streamHash)
  {
    var key := a.storageRef.key;
    var head := bucket.Head(key);
    var observed := if head.None? then None else Some(|head.value.bytes|);
    var problem := VerifyStoredObject(head, a.sha256, a.byteSize);
    if problem == Some(ObjectDigestUnverifiable) && streamHash {
      ghost var before := bucket.objects;
      var body, _ := bucket.Get(key);
      KeptChains(old(bucket.objects), before, bucket.objects);
      assert KeptAt(before, bucket.objects, key);
      problem := HashedProblem(bucket.s.codec, body, a);
    }
    found := if problem.None? then None
             else Some(ArtifactProblem(a.artifactKey, key, problem.value, a.sha256, a.byteSize, observed));
  }

  /**
    The re-check a reader runs before it trusts a terminal's objects.  It answers ok, allowed at least one
    problem, exactly when every object checks out: whatever checks out when it begins is not reported,
    and after an ok everything checks out.  Every reported problem was there, with its reason, at some
    moment of the check.  Allowed none, it looks at nothing and answers ok.
  */
  method VerifyReferencedObjects(bucket: R2Bucket, artifacts: seq<Artifact>, streamHash: bool, maxProblems: nat)
    returns (ok: bool, checked: nat, problems: seq<ArtifactProblem>)
    requires bucket.Valid()
    modifies bucket`objects, bucket`log, bucket`calls, bucket`faults
    ensures bucket.Valid() && old(bucket.log) <= bucket.log
    ensures ok <==> problems == []
    ensures |problems| <= maxProblems && checked <= |artifacts|
    ensures |problems| < maxProblems ==> checked == |artifacts|
    ensures TrueProblems(bucket.s, bucket.log, |old(bucket.log)|, artifacts, problems, streamHash)
    ensures maxProblems >= 1 && ok ==> ChecksOut(bucket.s.codec, bucket.objects, artifacts, |artifacts|, streamHash)
    ensures ChecksOut(bucket.s.codec, old(bucket.objects), artifacts, |artifacts|, streamHash) ==> ok
    ensures maxProblems == 0 ==> ok && checked == 0
  {
    problems, checked := [], 0;
    while checked < |artifacts| && |problems| < maxProblems
      invariant checked <= |artifacts| && |problems| <= maxProblems
      invariant bucket.Valid() && old(bucket.log) <= bucket.log
      invariant Progress(bucket.s, bucket.log, |old(bucket.log)|, artifacts, checked, problems, streamHash)
      invariant maxProblems == 0 ==> checked == 0
    {
      ghost var before := bucket.log;
      var found := CheckArtifact(bucket, artifacts[checked], streamHash);
      ProgressStep(bucket.s, before, bucket.log, |old(bucket.log)|, artifacts, checked, problems, found, streamHash);
      problems, checked := Extended(problems, found), checked + 1;
    }
    ok := problems == [];
    if !ok {
      assert bucket.log[..|old(bucket.log)|] == old(bucket.log);
      ProblemRefutes(bucket.s, bucket.log, |old(bucket.log)|, artifacts, problems[0], streamHash);
    }
  }

  // ----- what a success is worth later -----

  lemma VerifiedChecksOut(c: Codec, objects: Objects, artifacts: seq<Artifact>, streamHash: bool)
    requires AllVerified(objects, artifacts)
    ensures ChecksOut(c, objects, artifacts, |artifacts|, streamHash)
  {
    assert forall i :: 0 <= i < |artifacts| ==> VerifiedAt(objects, artifacts[i]);
  }

  /**
    After `persisted` or `already_persisted`, in every later state the reader finds this manifest's
    terminal, and re-checking the objects it names finds no problem.
  */
  lemma SuccessIsForEver(s: Setting, log: seq<Write>, n: nat, plan: TerminalPlan.Plan, m: TerminalManifest,
                         r: PersistResult, faulted: bool, streamHash: bool)
    requires Run(s, log) && n <= |log| && Readable(s, m)
    requires Justified(s, Replay(s, log[..n]), plan, m, r, faulted) && Succeeded(r)
    ensures ReadTerminalAt(s.codec, Replay(s, log), TerminalKeyOf(m)) == OwnTerminal(s, m)
    ensures ChecksOut(s.codec, Replay(s, log), m.lists.artifacts, |m.lists.artifacts|, streamHash)
  {
    PrefixIsPossible(s, log, n);
    SuccessSeals(s, log[..n], plan, m, r, faulted);
    SealLasts(s, log, n, m);
    VerifiedChecksOut(s.codec, Replay(s, log), m.lists.artifacts, streamHash);
  }
}
