/**
  `persistRun` and the readers as the source runs them: step by step against a bucket that other
  writers change between any two calls and that may lose any call, or only its answer.
*/
module Writer {
  import opened Bucket
  import opened BucketRuns
  import opened Checkpoints
  import opened Faults
  import opened Keys
  import opened Manifest
  import opened Outcomes
  import opened TerminalPlan
  import opened Wrappers

  datatype PutAnswer = Accepted(stored: Stored) | Refused | Threw(checksum: bool)

  /** What the reader answers when the body can be read, or cannot. */
  function ReadVia(c: Codec, objects: Objects, key: string, unreadable: bool): ReadResult {
    var o := Lookup(objects, key);
    if unreadable && o.Some? && |o.value.bytes| <= MAX_TERMINAL_BYTES then Blocked(TerminalUnreadable)
    else ReadTerminalAt(c, objects, key)
  }

  /** `w`, a create-only put, stores `o` under `key`. */
  predicate Performs(s: Setting, w: Write, key: string, o: Stored) {
    !w.CompleteObject? && KeyOfWrite(s, w) == key && Written(s, w) == o
  }

  lemma ReadyStays(s: Setting, before: Objects, after: Objects, w: Write)
    requires Kept(before, after) && Ready(s, before, w)
    ensures Ready(s, after, w)
  {
    if w.PutTerminal? {
      AllVerifiedStays(before, after, w.manifest.lists.artifacts);
    }
  }

  /** An object the run's writers stored under the digest of some bytes passes the check for those bytes. */
  lemma OwnObjectVerifies(s: Setting, objects: Objects, key: string, bytes: Bytes)
    requires Lawful(s) && Inv(s, objects) && bytes in s.texts
    requires ObjectKey(s.codec.hash(bytes)) == Ok(key) && key in objects && key !in s.start
    ensures VerifyStoredObject(Lookup(objects, key), s.codec.hash(bytes), |bytes|) == None
  {
    var o := objects[key];
    assert GoodAt(s, objects, key);
    ObjectsAreNotTerminals(s.codec.hash(bytes), key);
    if TerminalGood(s, objects, key, o) {
      var m :| TerminalOf(s, objects, key, o, m);
      TerminalsParse(m, key);
    }
    SameObjectKey(s.codec.hash(bytes), s.codec.hash(o.bytes), key);
    assert !Collides(s, bytes, o.bytes);
  }

  lemma VerifiedUpToStays(before: Objects, after: Objects, artifacts: seq<Artifact>, n: nat)
    requires Kept(before, after) && VerifiedUpTo(before, artifacts, n)
    ensures VerifiedUpTo(after, artifacts, n)
  {
    forall i | 0 <= i < |artifacts| && i < n ensures VerifiedAt(after, artifacts[i]) {
      assert KeptAt(before, after, artifacts[i].storageRef.key);
      VerifiedStays(before, after, artifacts[i]);
    }
  }

  predicate FirstParts(uploaded: seq<Bytes>, parts: seq<Bytes>) {
    |uploaded| <= |parts| && uploaded == parts[..|uploaded|]
  }

  lemma OneMorePart(uploaded: seq<Bytes>, parts: seq<Bytes>)
    requires FirstParts(uploaded, parts) && |uploaded| < |parts|
    ensures FirstParts(uploaded + [parts[|uploaded|]], parts)
  {
  }

  lemma AllParts(uploaded: seq<Bytes>, parts: seq<Bytes>)
    requires FirstParts(uploaded, parts) && |uploaded| >= |parts|
    ensures uploaded == parts
  {
  }

  lemma KeptItself(objects: Objects)
    ensures Kept(objects, objects)
  {
    assert forall key :: KeptAt(objects, objects, key);
  }

  lemma DescribedIsBacked(s: Setting, plan: Plan, m: TerminalManifest)
    requires Lawful(s) && Describes(s.codec, plan, m)
    requires forall a :: a in plan.artifacts ==> BodyBytes(a.body) in s.texts
    ensures AllBacked(s, plan, m.lists.artifacts)
  {
    NormalIdentity(s, m);
    forall i | 0 <= i < |m.lists.artifacts| ensures Backed(s, plan, m.lists.artifacts[i]) {
      assert Planned(plan, m.lists.artifacts[i]);
    }
  }

  lemma OneMoreDone(plan: Plan, artifacts: seq<Artifact>, done: seq<PersistedObject>, next: PersistedObject)
    requires |done| < |artifacts|
    ensures NewWrites(plan, artifacts, done + [next]) ==
            NewWrites(plan, artifacts, done) + if next.reused then [] else [WriteOf(plan, artifacts[|done|])]
  {
    assert (done + [next])[..|done|] == done;
  }

  /** The artifacts done are verified, their bodies were as checked, and just the new ones were written. */
  ghost predicate ArtifactsDone(s: Setting, plan: Plan, artifacts: seq<Artifact>, verifyBodyDigest: bool, objects: Objects,
                                done: seq<PersistedObject>, before: seq<Write>, own: seq<Write>)
  {
    && Follows(done, artifacts) && VerifiedUpTo(objects, artifacts, |done|)
    && BodiesOk(s, plan, artifacts, |done|, verifyBodyDigest)
    && own == before + NewWrites(plan, artifacts, done)
  }

  lemma StillDone(s: Setting, plan: Plan, artifacts: seq<Artifact>, verifyBodyDigest: bool, objects: Objects,
                  later: Objects, done: seq<PersistedObject>, before: seq<Write>, own: seq<Write>)
    requires ArtifactsDone(s, plan, artifacts, verifyBodyDigest, objects, done, before, own) && Kept(objects, later)
    ensures ArtifactsDone(s, plan, artifacts, verifyBodyDigest, later, done, before, own)
  {
    VerifiedUpToStays(objects, later, artifacts, |done|);
  }

  lemma NextDone(s: Setting, plan: Plan, artifacts: seq<Artifact>, verifyBodyDigest: bool, objects: Objects,
                 done: seq<PersistedObject>, next: PersistedObject, before: seq<Write>, own: seq<Write>, own': seq<Write>)
    requires ArtifactsDone(s, plan, artifacts, verifyBodyDigest, objects, done, before, own) && |done| < |artifacts|
    requires VerifiedAt(objects, artifacts[|done|]) && Reports(next, artifacts[|done|])
    requires BodyOk(s, plan, artifacts[|done|], verifyBodyDigest)
    requires AddsAtMost(own, own', WriteOf(plan, artifacts[|done|])) && (next.reused <==> own' == own)
    ensures ArtifactsDone(s, plan, artifacts, verifyBodyDigest, objects, done + [next], before, own')
  {
    OneMoreDone(plan, artifacts, done, next);
  }

  class R2Bucket {
    const s: Setting
    var objects: Objects
    /** The writes that have taken effect, by whatever writer. */
    ghost var log: seq<Write>
    /** Which of this writer's calls fail, before or after they took effect; given, and the same for ever. */
    const failing: set<nat>
    /** How many chances to fail there have been, and how many of them were taken. */
    var calls: nat
    ghost var faults: nat
    /** The writes of this writer that have taken effect. */
    ghost var own: seq<Write>

    /** The bucket is where some run of the writers leaves it. */
    ghost predicate LogOk()
      reads this`objects, this`log
    {
      Run(s, log) && objects == Replay(s, log)
    }

    ghost predicate CountOk()
      reads this`calls, this`faults
    {
      faults == FailCount(failing, calls)
    }

    ghost predicate Valid()
      reads this`objects, this`log, this`calls, this`faults
    {
      LogOk() && CountOk()
    }

    constructor (setting: Setting, failing: set<nat>)
      requires Lawful(setting)
      ensures Valid() && s == setting && this.failing == failing
      ensures log == [] && objects == setting.start && calls == 0 && faults == 0 && own == []
    {
      s := setting;
      this.failing := failing;
      objects := setting.start;
      log := [];
      calls, faults := 0, 0;
      own := [];
    }

    /** A write takes effect: `o` is stored under `key`. */
    method Store(key: string, o: Stored, ghost w: Write)
      requires Valid() && Enabled(s, objects, w) && KeyOfWrite(s, w) == key && Written(s, w) == o
      modifies this`objects, this`log
      ensures Valid() && log == old(log) + [w] && objects == old(objects)[key := o]
      ensures Kept(old(objects), objects)
    {
      InvAlways(s, log);
      InvStep(s, objects, w);
      objects := objects[key := o];
      log := log + [w];
      assert log[..|log| - 1] == old(log);
    }

    /** Whatever other writers do between two calls of this one. */
    method Others()
      requires Valid()
      modifies this`objects, this`log
      ensures Valid() && old(log) <= log && Kept(old(objects), objects)
    {
      var writes: seq<Write> := *;
      for i := 0 to |writes|
        invariant Valid() && old(log) <= log && Kept(old(objects), objects)
      {
        if Enabled(s, objects, writes[i]) {
          ghost var before := objects;
          Store(KeyOfWrite(s, writes[i]), Written(s, writes[i]), writes[i]);
          KeptChains(old(objects), before, objects);
        }
      }
    }

    /** The next chance to fail. */
    method Fault() returns (failed: bool)
      requires CountOk()
      modifies this`calls, this`faults
      ensures CountOk() && failed == (old(calls) in failing) && calls == old(calls) + 1
      ensures faults == old(faults) + if failed then 1 else 0
    {
      failed := calls in failing;
      calls, faults := calls + 1, faults + if failed then 1 else 0;
    }

    method Head(key: string) returns (o: Option<Stored>)
      requires Valid()
      modifies this`objects, this`log
      ensures Valid() && old(log) <= log && Kept(old(objects), objects)
      ensures o == Lookup(objects, key)
    {
      Others();
      o := Lookup(objects, key);
    }

    /** The object, and whether its body could be read. */
    method Get(key: string) returns (o: Option<Stored>, readable: bool)
      requires Valid()
      modifies this`objects, this`log, this`calls, this`faults
      ensures Valid() && old(log) <= log && Kept(old(objects), objects) && calls == old(calls) + 1
      ensures o == Lookup(objects, key)
      ensures readable == (old(calls) !in failing) && faults == old(faults) + if readable then 0 else 1
    {
      Others();
      o := Lookup(objects, key);
      var failed := Fault();
      readable := !failed;
    }

    /** A conditional put with a declared digest: refused when the key is taken, rejected when the bytes differ. */
    method PutIfAbsent(key: string, bytes: Bytes, sha256: string, metadata: Metadata, ghost w: Write)
      returns (answer: PutAnswer)
      requires Valid()
      requires s.codec.hash(bytes) == sha256 ==>
                 Performs(s, w, key, Stored(bytes, Some(sha256), metadata)) && Ready(s, objects, w)
      modifies this
      ensures Valid() && old(log) <= log && Kept(old(objects), objects) && calls >= old(calls) && faults >= old(faults)
      ensures answer.Accepted? ==>
                && s.codec.hash(bytes) == sha256
                && answer.stored == Stored(bytes, Some(sha256), metadata)
                && Lookup(objects, key) == Some(answer.stored)
                && own == old(own) + [w]
      ensures answer.Refused? ==> s.codec.hash(bytes) == sha256 && key in objects && own == old(own)
      ensures answer.Threw? <==> faults > old(faults) || s.codec.hash(bytes) != sha256
      ensures own == old(own) || own == old(own) + [w]
    {
      Others();
      var checksum: bool := *;
      var failed := Fault();
      if failed || s.codec.hash(bytes) != sha256 {
        return Threw(checksum);
      }
      if key in objects {
        return Refused;
      }
      ReadyStays(s, old(objects), objects, w);
      ghost var before := objects;
      Store(key, Stored(bytes, Some(sha256), metadata), w);
      own := own + [w];
      KeptChains(old(objects), before, objects);
      failed := Fault();
      if failed {
        return Threw(checksum);
      }
      answer := Accepted(objects[key]);
    }

    /** Starting an upload, or uploading a part of it, stores nothing under any key. */
    method MultipartCall() returns (threw: bool)
      requires Valid()
      modifies this`objects, this`log, this`calls, this`faults
      ensures Valid() && old(log) <= log && Kept(old(objects), objects) && calls == old(calls) + 1
      ensures threw == (old(calls) in failing) && faults == old(faults) + if threw then 1 else 0
    {
      Others();
      threw := Fault();
    }

    /** Completing an upload replaces whatever is under the key by the parts' bytes. */
    method Complete(key: string, bytes: Bytes, metadata: Metadata) returns (stored: Option<Stored>)
      requires Valid() && Ready(s, objects, CompleteObject(bytes))
      requires KeyOfWrite(s, CompleteObject(bytes)) == key
      requires Written(s, CompleteObject(bytes)) == Stored(bytes, None, metadata)
      modifies this
      ensures Valid() && old(log) <= log && Kept(old(objects), objects) && calls >= old(calls) && faults >= old(faults)
      ensures stored.Some? ==> stored.value == Stored(bytes, None, metadata) && Lookup(objects, key) == stored
      ensures stored.None? <==> faults > old(faults)
      ensures AddsAtMost(old(own), own, CompleteObject(bytes)) && (stored.Some? ==> own == old(own) + [CompleteObject(bytes)])
    {
      Others();
      var failed := Fault();
      if failed {
        return None;
      }
      ghost var before := objects;
      ReadyStays(s, old(objects), objects, CompleteObject(bytes));
      Store(key, Stored(bytes, None, metadata), CompleteObject(bytes));
      own := own + [CompleteObject(bytes)];
      KeptChains(old(objects), before, objects);
      failed := Fault();
      if failed {
        return None;
      }
      stored := Some(objects[key]);
    }

    /** The parts in order, up to the first whose upload fails. */
    method UploadParts(parts: seq<Bytes>) returns (uploaded: seq<Bytes>)
      requires Valid()
      modifies this`objects, this`log, this`calls, this`faults
      ensures Valid() && old(log) <= log && Kept(old(objects), objects) && calls >= old(calls) && faults >= old(faults)
      ensures FirstParts(uploaded, parts)
      ensures |uploaded| < |parts| <==> faults > old(faults)
    {
      uploaded := [];
      KeptItself(objects);
      for i := 0 to |parts|
        invariant Valid() && old(log) <= log && Kept(old(objects), objects) && calls >= old(calls)
        invariant |uploaded| == i && FirstParts(uploaded, parts) && faults == old(faults)
      {
        ghost var before := objects;
        var threw := MultipartCall();
        KeptChains(old(objects), before, objects);
        if threw {
          return;
        }
        OneMorePart(uploaded, parts);
        uploaded := uploaded + [parts[i]];
      }
    }

    /** One upload: its parts go out one by one and the completion last; the first failure abandons it. */
    method PutMultipart(key: string, sha256: string, parts: seq<Bytes>) returns (r: Result<Stored, PutProblem>)
      requires Valid()
      requires Concat(parts) in s.texts && s.codec.hash(Concat(parts)) == sha256
      requires Sha256Hex(sha256) && key == ObjectKeyOf(sha256) && key !in s.start
      modifies this
      ensures Valid() && old(log) <= log && Kept(old(objects), objects) && calls >= old(calls) && faults >= old(faults)
      ensures r.Ok? ==>
                && r.value == Stored(Concat(parts), None, ObjectMetadata(sha256, |Concat(parts)|))
                && Lookup(objects, key) == Some(r.value)
      ensures r.Err? <==> faults > old(faults)
      ensures AddsAtMost(old(own), own, CompleteObject(Concat(parts)))
      ensures r.Ok? ==> own == old(own) + [CompleteObject(Concat(parts))]
    {
      var threw := MultipartCall();
      if threw {
        return Err(MultipartCreateFailed);
      }
      ghost var before := objects;
      var uploaded := UploadParts(parts);
      KeptChains(old(objects), before, objects);
      if |uploaded| < |parts| {
        return Err(MultipartIncomplete);
      }
      AllParts(uploaded, parts);
      before := objects;
      var stored := Complete(key, Concat(uploaded), ObjectMetadata(sha256, |Concat(parts)|));
      KeptChains(old(objects), before, objects);
      if stored.None? {
        return Err(MultipartIncomplete);
      }
      r := Ok(stored.value);
    }

    /** What is already under the key decides. */
    method Reuse(artifact: PlanArtifact, key: string, bytes: Bytes, existing: Option<Stored>)
      returns (r: Result<PersistedObject, PutProblem>)
      requires Valid() && existing == Lookup(objects, key)
      requires Sha256Hex(artifact.sha256) && key == ObjectKeyOf(artifact.sha256) && bytes in s.texts
      ensures r.Ok? ==>
                && VerifyStoredObject(existing, artifact.sha256, |bytes|) == None
                && PersistedAs(r.value, artifact, key, |bytes|)
                && r.value.reused
      ensures r.Err? && existing.Some? ==> key in s.start || s.codec.hash(bytes) != artifact.sha256
    {
      var problem := VerifyStoredObject(existing, artifact.sha256, |bytes|);
      if problem.Some? {
        if existing.Some? && key !in s.start && s.codec.hash(bytes) == artifact.sha256 {
          InvAlways(s, log);
          OwnObjectVerifies(s, objects, key, bytes);
        }
        return Err(BadObject(problem.value));
      }
      r := Ok(PersistedObject(artifact.artifactKey, key, artifact.sha256, |bytes|, true));
    }

    /** A single-part put into a key that was free; a lost race is settled by what the winner stored. */
    method StoreWhole(artifact: PlanArtifact, key: string, bytes: Bytes) returns (r: Result<PersistedObject, PutProblem>)
      requires Valid() && bytes in s.texts
      requires Sha256Hex(artifact.sha256) && key == ObjectKeyOf(artifact.sha256)
      modifies this
      ensures Valid() && old(log) <= log && Kept(old(objects), objects) && calls >= old(calls) && faults >= old(faults)
      ensures r.Ok? ==>
                && VerifyStoredObject(Lookup(objects, key), artifact.sha256, |bytes|) == None
                && PersistedAs(r.value, artifact, key, |bytes|)
      ensures r.Err? ==> faults > old(faults) || key in s.start || s.codec.hash(bytes) != artifact.sha256
      ensures AddsAtMost(old(own), own, PutObject(bytes)) && (r.Ok? ==> (r.value.reused <==> own == old(own)))
    {
      var answer := PutIfAbsent(key, bytes, artifact.sha256, ObjectMetadata(artifact.sha256, |bytes|), PutObject(bytes));
      match answer
      case Threw(checksum) =>
        r := Err(if checksum then ObjectChecksumRejected else ObjectPutFailed);
      case Refused =>
        ghost var before := objects;
        var winner := Head(key);
        KeptChains(old(objects), before, objects);
        assert KeptAt(before, objects, key);
        r := Reuse(artifact, key, bytes, winner);
      case Accepted(stored) =>
        // The check of what the put answered cannot fail.
        assert VerifyStoredObject(Some(stored), artifact.sha256, |bytes|) == None;
        r := Ok(PersistedObject(artifact.artifactKey, key, artifact.sha256, |bytes|, false));
    }

    /** A multipart upload to a key that was free. */
    method StoreParts(artifact: PlanArtifact, key: string, parts: seq<Bytes>)
      returns (r: Result<PersistedObject, PutProblem>)
      requires Valid() && Concat(parts) in s.texts && s.codec.hash(Concat(parts)) == artifact.sha256
      requires Sha256Hex(artifact.sha256) && key == ObjectKeyOf(artifact.sha256) && key !in s.start
      modifies this
      ensures Valid() && old(log) <= log && Kept(old(objects), objects) && calls >= old(calls) && faults >= old(faults)
      ensures r.Ok? ==>
                && VerifyStoredObject(Lookup(objects, key), artifact.sha256, |Concat(parts)|) == None
                && PersistedAs(r.value, artifact, key, |Concat(parts)|)
      ensures r.Err? <==> faults > old(faults)
      ensures AddsAtMost(old(own), own, CompleteObject(Concat(parts))) && (r.Ok? ==> (r.value.reused <==> own == old(own)))
    {
      var outcome := PutMultipart(key, artifact.sha256, parts);
      if outcome.Err? {
        return Err(outcome.error);
      }
      // The check of what the completion answered cannot fail.
      assert VerifyStoredObject(Some(outcome.value), artifact.sha256, |Concat(parts)|) == None;
      r := Ok(PersistedObject(artifact.artifactKey, key, artifact.sha256, |Concat(parts)|, false));
    }

    /**
      Store one artifact's bytes under their digest, or find them there.  A fault-free call fails only over
      an object that was there before the run, or over bytes that do not have the declared digest.
    */
    method PutArtifact(artifact: PlanArtifact, bytes: Bytes) returns (r: Result<PersistedObject, PutProblem>)
      requires Valid()
      requires bytes == BodyBytes(artifact.body) && bytes in s.texts && |bytes| == artifact.byteSize
      requires Sha256Hex(artifact.sha256)
      requires artifact.body.Parts? ==> s.codec.hash(bytes) == artifact.sha256
      modifies this
      ensures Valid() && old(log) <= log && Kept(old(objects), objects) && calls >= old(calls) && faults >= old(faults)
      ensures r.Ok? ==>
                && VerifyStoredObject(Lookup(objects, ObjectKeyOf(artifact.sha256)), artifact.sha256, |bytes|) == None
                && PersistedAs(r.value, artifact, ObjectKeyOf(artifact.sha256), |bytes|)
      ensures ObjectKeyOf(artifact.sha256) in old(objects) ==> own == old(own) && (r.Ok? ==> r.value.reused)
      ensures r.Err? ==>
                faults > old(faults) || ObjectKeyOf(artifact.sha256) in s.start || s.codec.hash(bytes) != artifact.sha256
      ensures AddsAtMost(old(own), own, if artifact.body.Parts? then CompleteObject(bytes) else PutObject(bytes))
      ensures r.Ok? ==> (r.value.reused <==> own == old(own))
    {
      var key := ObjectKeyOf(artifact.sha256);
      var existing := Head(key);
      assert KeptAt(old(objects), objects, key);
      ghost var before := objects;
      if existing.Some? {
        r := Reuse(artifact, key, bytes, existing);
      } else {
        InvAlways(s, log);
        assert key !in s.start;
        match artifact.body {
          case Whole(_) =>
            r := StoreWhole(artifact, key, bytes);
          case Parts(parts) =>
            r := StoreParts(artifact, key, parts);
        }
        KeptChains(old(objects), before, objects);
      }
    }

    // ----- the terminal -----

    /** What the reader makes of the terminal at a key. */
    method ReadTerminal(key: string) returns (r: ReadResult)
      requires Valid()
      modifies this`objects, this`log, this`calls, this`faults
      ensures Valid() && old(log) <= log && Kept(old(objects), objects)
      ensures calls == old(calls) + 1 && r == ReadVia(s.codec, objects, key, old(calls) in failing)
      ensures faults == old(faults) + if old(calls) in failing then 1 else 0
    {
      var body, readable := Get(key);
      if body.None? {
        return Missing;
      }
      if |body.value.bytes| > MAX_TERMINAL_BYTES {
        return Blocked(TerminalTooLarge);
      }
      if !readable {
        return Blocked(TerminalUnreadable);
      }
      r := ReadStored(s.codec, key, body.value);
    }

    /** An existing terminal is the same digest sent again, or a conflict: the reader decides. */
    method CompareStored(key: string, digest: string) returns (same: bool, storedDigest: Option<string>, reason: ConflictReason)
      requires Valid() && key in objects
      modifies this`objects, this`log, this`calls, this`faults
      ensures Valid() && old(log) <= log && Kept(old(objects), objects) && calls >= old(calls) && faults >= old(faults)
      ensures same <==> HoldsDigest(s.codec, objects, key, digest) && old(calls) !in failing
      ensures calls == old(calls) + 1
      ensures !same ==> ConflictStands(s.codec, objects, key, digest, storedDigest, reason, faults > old(faults))
    {
      assert KeptAt(objects, objects, key);
      ghost var before := objects;
      var read := ReadTerminal(key);
      assert KeptAt(before, objects, key);
      match read
      case Found(_, found, _) =>
        same, storedDigest, reason := found == digest, Some(found), TerminalDigestMismatch;
      case Blocked(why) =>
        same, storedDigest, reason := false, None, TerminalBlocked(why);
    }

    // ----- the run -----

    /** One turn of the artifact loop: check the body, then put it. */
    method PersistArtifact(plan: Plan, a: Artifact, verifyBodyDigest: bool)
      returns (r: Result<PersistedObject, IncompleteReason>)
      requires Valid() && Backed(s, plan, a)
      modifies this
      ensures Valid() && old(log) <= log && Kept(old(objects), objects) && calls >= old(calls) && faults >= old(faults)
      ensures r.Ok? ==> VerifiedAt(objects, a) && Reports(r.value, a)
      ensures r.Err? ==> Blamed(s, plan, a, r.error, faults > old(faults))
      ensures r.Ok? ==> BodyOk(s, plan, a, verifyBodyDigest) && (r.value.reused <==> own == old(own))
      ensures r.Err? ==> StopsAt(s, plan, a, verifyBodyDigest, r.error, old(own), own)
      ensures AddsAtMost(old(own), own, WriteOf(plan, a))
      ensures !BodyOk(s, plan, a, verifyBodyDigest) ==> log == old(log) && calls == old(calls)
    {
      var planned := FindPlanned(plan.artifacts, a.artifactKey).value;
      var body := BodyBytes(planned.body);
      KeptItself(objects);
      if |body| != a.byteSize {
        return Err(ArtifactSizeMismatch);
      }
      if (verifyBodyDigest || planned.body.Parts?) && s.codec.hash(body) != a.sha256 {
        return Err(ArtifactDigestMismatch);
      }
      var put := PutArtifact(planned, body);
      r := if put.Err? then Err(ArtifactFailed(put.error)) else Ok(put.value);
    }

    /** Every artifact in turn, up to the first that cannot be stored. */
    method PersistArtifacts(plan: Plan, artifacts: seq<Artifact>, verifyBodyDigest: bool)
      returns (done: seq<PersistedObject>, failure: Option<IncompleteReason>)
      requires Valid() && AllBacked(s, plan, artifacts)
      modifies this
      ensures Valid() && old(log) <= log && Kept(old(objects), objects) && calls >= old(calls) && faults >= old(faults)
      ensures Follows(done, artifacts) && VerifiedUpTo(objects, artifacts, |done|)
      ensures BodiesOk(s, plan, artifacts, |done|, verifyBodyDigest)
      ensures failure.None? ==> |done| == |artifacts| && own == old(own) + NewWrites(plan, artifacts, done)
      ensures failure.Some? ==>
                && |done| < |artifacts| && Blamed(s, plan, artifacts[|done|], failure.value, faults > old(faults))
                && StopsAt(s, plan, artifacts[|done|], verifyBodyDigest, failure.value,
                           old(own) + NewWrites(plan, artifacts, done), own)
    {
      done := [];
      KeptItself(objects);
      for i := 0 to |artifacts|
        invariant Valid() && old(log) <= log && Kept(old(objects), objects) && calls >= old(calls) && faults >= old(faults)
        invariant |done| == i && ArtifactsDone(s, plan, artifacts, verifyBodyDigest, objects, done, old(own), own)
      {
        assert Backed(s, plan, artifacts[i]);
        ghost var before, ownBefore := objects, own;
        var r := PersistArtifact(plan, artifacts[i], verifyBodyDigest);
        KeptChains(old(objects), before, objects);
        StillDone(s, plan, artifacts, verifyBodyDigest, before, objects, done, old(own), ownBefore);
        if r.Err? {
          return done, Some(r.error);
        }
        NextDone(s, plan, artifacts, verifyBodyDigest, objects, done, r.value, old(own), ownBefore, own);
        done := done + [r.value];
      }
      failure := None;
    }

    /** Both ways of meeting the run's terminal already there. */
    method Settle(plan: Plan, m: TerminalManifest, done: seq<PersistedObject>) returns (r: PersistResult)
      requires Valid() && TerminalKeyOf(m) in objects
      requires Follows(done, m.lists.artifacts) && |done| == |m.lists.artifacts|
      modifies this`objects, this`log, this`calls, this`faults
      ensures Valid() && old(log) <= log && Kept(old(objects), objects) && calls >= old(calls) && faults >= old(faults)
      ensures Justified(s, objects, plan, m, r, faults > old(faults))
      ensures (r.AlreadyPersisted? && r.done == done) || r.Conflict?
      ensures calls == old(calls) + 1
      ensures r.AlreadyPersisted? <==>
                HoldsDigest(s.codec, objects, TerminalKeyOf(m), Digest(s.codec, m)) && old(calls) !in failing
    {
      var key := TerminalKeyOf(m);
      ghost var before := objects;
      var same, storedDigest, reason := CompareStored(key, Digest(s.codec, m));
      assert KeptAt(before, objects, key);
      r := if same then AlreadyPersisted(CheckpointOf(m, done, true), done) else Conflict(storedDigest, reason);
    }

    /** The terminal is put last, create-only; a lost race is settled by what the winner put. */
    method PutTerminalLast(plan: Plan, m: TerminalManifest, done: seq<PersistedObject>) returns (r: PersistResult)
      requires Valid() && s.codec.normal(m) && s.codec.encode(m) in s.texts
      requires AllVerified(objects, m.lists.artifacts)
      requires Follows(done, m.lists.artifacts) && |done| == |m.lists.artifacts|
      modifies this
      ensures Valid() && old(log) <= log && Kept(old(objects), objects) && calls >= old(calls) && faults >= old(faults)
      ensures Justified(s, objects, plan, m, r, faults > old(faults))
      ensures r.Persisted? ==> r.done == done && own == old(own) + [PutTerminal(m)]
      ensures r.AlreadyPersisted? ==> r.done == done && own == old(own)
      ensures r.Incomplete? ==> r.failed.None? && r.done == done && AddsAtMost(old(own), own, PutTerminal(m))
    {
      var key, bytes, digest := TerminalKeyOf(m), s.codec.encode(m), Digest(s.codec, m);
      var answer := PutIfAbsent(key, bytes, digest, TerminalMetadata(digest, |bytes|), PutTerminal(m));
      AllVerifiedStays(old(objects), objects, m.lists.artifacts);
      match answer
      case Threw(_) =>
        r := Incomplete(TerminalPutFailed, None, CheckpointOf(m, done, false), done);
      case Refused =>
        ghost var before := objects;
        r := Settle(plan, m, done);
        KeptChains(old(objects), before, objects);
      case Accepted(stored) =>
        // The check of what the put answered cannot fail.
        assert VerifyStoredObject(Some(stored), digest, |bytes|) == None;
        r := Persisted(CheckpointOf(m, done, true), done);
    }

    /**
      Persist a planned run and finish it with its terminal.  A terminal found at the start leaves everything as
      it is, and is this run's exactly when it has this digest and the one read of it does not fail.
    */
    method PersistPlanned(plan: Plan, m: TerminalManifest, verifyBodyDigest: bool) returns (r: PersistResult)
      requires Valid() && s.codec.normal(m) && s.codec.encode(m) in s.texts && AllBacked(s, plan, m.lists.artifacts)
      modifies this
      ensures Valid() && old(log) <= log && Kept(old(objects), objects) && calls >= old(calls) && faults >= old(faults)
      ensures Justified(s, objects, plan, m, r, faults > old(faults))
      ensures TerminalKeyOf(m) in old(objects) ==>
                && own == old(own)
                && (r.AlreadyPersisted? <==>
                      HoldsDigest(s.codec, objects, TerminalKeyOf(m), Digest(s.codec, m)) && old(calls) !in failing)
                && (r.Conflict? <==> !r.AlreadyPersisted?)
      ensures BodiesAccounted(s, plan, m, verifyBodyDigest, r, old(own), own, calls - old(calls))
    {
      var artifacts := m.lists.artifacts;
      var existing := Head(TerminalKeyOf(m));
      assert KeptAt(old(objects), objects, TerminalKeyOf(m));
      ghost var before := objects;
      if existing.Some? {
        r := Settle(plan, m, ReferencedObjects(artifacts));
        KeptChains(old(objects), before, objects);
        return;
      }
      var done, failure := PersistArtifacts(plan, artifacts, verifyBodyDigest);
      KeptChains(old(objects), before, objects);
      if failure.Some? {
        return Incomplete(failure.value, Some(artifacts[|done|].artifactKey), CheckpointOf(m, done, false), done);
      }
      before := objects;
      r := PutTerminalLast(plan, m, done);
      KeptChains(old(objects), before, objects);
    }

    /**
      Persist one acquisition run.  A plan that describes no manifest is refused before anything is
      written.  A success is a sealed run; without a failing call an honest plan succeeds unless another won.
    */
    method PersistRun(p: Platform, plan: Plan, verifyBodyDigest: bool) returns (outcome: Result<PersistResult, ManifestError>)
      requires Valid() && s.codec == CodecOf(p)
      requires forall a :: a in plan.artifacts ==> BodyBytes(a.body) in s.texts
      requires var planned := PlanManifest(p.dates, plan); planned.Ok? ==> p.encode(planned.value) in s.texts
      modifies this
      ensures Valid() && old(log) <= log && Kept(old(objects), objects) && calls >= old(calls) && faults >= old(faults)
      ensures outcome.Err? <==> PlanManifest(p.dates, plan).Err?
      ensures outcome.Err? ==> outcome.error == PlanManifest(p.dates, plan).error && log == old(log)
      ensures outcome.Ok? ==>
                Justified(s, objects, plan, PlanManifest(p.dates, plan).value, outcome.value, faults > old(faults))
      ensures outcome.Ok? && Succeeded(outcome.value) && Readable(s, PlanManifest(p.dates, plan).value) ==>
                Sealed(s, objects, PlanManifest(p.dates, plan).value)
      ensures outcome.Ok? && NoneFails(failing, old(calls), calls) && MustSucceed(s, plan, PlanManifest(p.dates, plan).value) ==>
                (Succeeded(outcome.value) <==> !RivalWrote(s, log, PlanManifest(p.dates, plan).value))
      ensures outcome.Ok? && TerminalKeyOf(PlanManifest(p.dates, plan).value) in old(objects) ==>
                var m := PlanManifest(p.dates, plan).value;
                && own == old(own)
                && (outcome.value.AlreadyPersisted? <==>
                      HoldsDigest(s.codec, objects, TerminalKeyOf(m), Digest(s.codec, m)) && old(calls) !in failing)
                && (outcome.value.Conflict? <==> !outcome.value.AlreadyPersisted?)
      ensures outcome.Ok? ==>
                BodiesAccounted(s, plan, PlanManifest(p.dates, plan).value, verifyBodyDigest, outcome.value, old(own), own,
                                calls - old(calls))
    {
      var planned := PlanManifest(p.dates, plan);
      if planned.Err? {
        KeptItself(objects);
        return Err(planned.error);
      }
      var m := planned.value;
      PlannedManifestDescribes(p, plan, m);
      DescribedIsBacked(s, plan, m);
      var r := PersistPlanned(plan, m, verifyBodyDigest);
      FailCountGrows(failing, old(calls), calls);
      EndingHolds(s, log, plan, m, r, faults > old(faults));
      outcome := Ok(r);
    }
  }
}
