/** What a writer hands back so that an interrupted run can be resumed from the bucket. */
module Checkpoints {
  import opened Bucket
  import opened Manifest
  import opened ManifestNormal
  import opened Sorting

  datatype PersistedObject = PersistedObject(artifactKey: string, key: string, sha256: string, byteSize: nat, reused: bool)

  /** What a caller needs to resume without fetching again. */
  datatype Checkpoint = Checkpoint(persistedKeys: seq<string>, persistedArtifactKeys: seq<string>,
                                   pendingArtifactKeys: seq<string>)

  /** The objects a manifest names, none of them written by this call. */
  function ReferencedObjects(artifacts: seq<Artifact>): (objects: seq<PersistedObject>)
    ensures Follows(objects, artifacts) && |objects| == |artifacts|
  {
    if artifacts == [] then []
    else
      var a := artifacts[|artifacts| - 1];
      ReferencedObjects(artifacts[..|artifacts| - 1])
      + [PersistedObject(a.artifactKey, a.storageRef.key, a.sha256, a.byteSize, true)]
  }

  function ArtifactKeysOf(artifacts: seq<Artifact>): (names: seq<string>)
    ensures |names| == |artifacts|
  {
    if artifacts == [] then [] else ArtifactKeysOf(artifacts[..|artifacts| - 1]) + [artifacts[|artifacts| - 1].artifactKey]
  }

  function DoneArtifactKeys(done: seq<PersistedObject>): seq<string> {
    if done == [] then [] else DoneArtifactKeys(done[..|done| - 1]) + [done[|done| - 1].artifactKey]
  }

  function DoneKeys(done: seq<PersistedObject>): seq<string> {
    if done == [] then [] else DoneKeys(done[..|done| - 1]) + [done[|done| - 1].key]
  }

  function Pending(artifacts: seq<Artifact>, persisted: seq<string>): seq<string> {
    if artifacts == [] then []
    else
      var rest, last := Pending(artifacts[..|artifacts| - 1], persisted), artifacts[|artifacts| - 1].artifactKey;
      if last in persisted then rest else rest + [last]
  }

  function CheckpointOf(m: TerminalManifest, done: seq<PersistedObject>, terminalWritten: bool): Checkpoint {
    var persisted := DoneArtifactKeys(done);
    Checkpoint(DoneKeys(done) + if terminalWritten then [TerminalKeyOf(m)] else [], persisted,
               Pending(m.lists.artifacts, persisted))
  }

  predicate Reports(p: PersistedObject, a: Artifact) {
    p.artifactKey == a.artifactKey && p.key == a.storageRef.key && p.sha256 == a.sha256 && p.byteSize == a.byteSize
  }

  /** The objects done are those of the first artifacts, in order. */
  predicate Follows(done: seq<PersistedObject>, artifacts: seq<Artifact>) {
    |done| <= |artifacts| && forall k :: 0 <= k < |done| ==> Reports(done[k], artifacts[k])
  }

  lemma {:induction false} DoneAreFirst(done: seq<PersistedObject>, artifacts: seq<Artifact>)
    requires Follows(done, artifacts)
    ensures DoneArtifactKeys(done) == ArtifactKeysOf(artifacts[..|done|])
  {
    if done != [] {
      var n := |done| - 1;
      DoneAreFirst(done[..n], artifacts);
      assert artifacts[..n + 1][..n] == artifacts[..n];
      assert Reports(done[n], artifacts[n]);
    }
  }

  lemma {:induction false} ArtifactKeysAt(artifacts: seq<Artifact>, k: nat)
    requires k < |artifacts|
    ensures ArtifactKeysOf(artifacts)[k] == artifacts[k].artifactKey
  {
    if k < |artifacts| - 1 {
      ArtifactKeysAt(artifacts[..|artifacts| - 1], k);
    }
  }

  predicate DoneName(artifacts: seq<Artifact>, n: nat, k: int) {
    0 <= k < |artifacts| && n <= |artifacts| ==> (artifacts[k].artifactKey in ArtifactKeysOf(artifacts[..n]) <==> k < n)
  }

  /** With distinct keys, exactly the first `n` artifacts are named by the first `n` keys. */
  lemma NamedIffFirst(artifacts: seq<Artifact>, n: nat, k: nat)
    requires n <= |artifacts| && k < |artifacts| && Ascending(artifacts, ArtifactKeyOf)
    ensures DoneName(artifacts, n, k)
  {
    var first := artifacts[..n];
    if k < n {
      ArtifactKeysAt(first, k);
    } else if artifacts[k].artifactKey in ArtifactKeysOf(first) {
      var j :| 0 <= j < n && ArtifactKeysOf(first)[j] == artifacts[k].artifactKey;
      ArtifactKeysAt(first, j);
      assert Ordered(artifacts, ArtifactKeyOf, j, k);
      BeforeIsTotal(artifacts[j].artifactKey, artifacts[k].artifactKey);
    }
  }

  /** Adding the next artifact adds its key to the pending ones exactly when it is not among the first `n`. */
  lemma PendingStep(artifacts: seq<Artifact>, persisted: seq<string>, k: nat)
    requires k < |artifacts|
    ensures ArtifactKeysOf(artifacts[..k + 1]) == ArtifactKeysOf(artifacts[..k]) + [artifacts[k].artifactKey]
    ensures Pending(artifacts[..k + 1], persisted) ==
            Pending(artifacts[..k], persisted)
            + if artifacts[k].artifactKey in persisted then [] else [artifacts[k].artifactKey]
  {
    assert artifacts[..k + 1][..k] == artifacts[..k];
  }

  function Rest(names: seq<string>, n: nat): seq<string> {
    if |names| <= n then [] else names[n..]
  }

  lemma {:induction false} PendingAreRest(artifacts: seq<Artifact>, n: nat, upTo: nat)
    requires n <= |artifacts| && upTo <= |artifacts|
    requires forall k :: DoneName(artifacts, n, k)
    ensures Pending(artifacts[..upTo], ArtifactKeysOf(artifacts[..n])) == Rest(ArtifactKeysOf(artifacts[..upTo]), n)
    decreases upTo
  {
    if upTo > 0 {
      var k := upTo - 1;
      PendingAreRest(artifacts, n, k);
      PendingStep(artifacts, ArtifactKeysOf(artifacts[..n]), k);
      assert DoneName(artifacts, n, k);
    }
  }

  /** A checkpoint splits the run's artifacts, in order, into those persisted and those pending. */
  lemma CheckpointPartitions(m: TerminalManifest, done: seq<PersistedObject>, terminalWritten: bool)
    requires Follows(done, m.lists.artifacts) && Ascending(m.lists.artifacts, ArtifactKeyOf)
    ensures var c := CheckpointOf(m, done, terminalWritten);
            && c.persistedArtifactKeys == ArtifactKeysOf(m.lists.artifacts[..|done|])
            && c.persistedArtifactKeys + c.pendingArtifactKeys == ArtifactKeysOf(m.lists.artifacts)
  {
    var artifacts, n := m.lists.artifacts, |done|;
    DoneAreFirst(done, artifacts);
    forall k ensures DoneName(artifacts, n, k) {
      if 0 <= k < |artifacts| {
        NamedIffFirst(artifacts, n, k);
      }
    }
    PendingAreRest(artifacts, n, |artifacts|);
    assert artifacts[..|artifacts|] == artifacts;
    FirstKeys(artifacts, n);
  }

  lemma {:induction false} FirstKeys(artifacts: seq<Artifact>, n: nat)
    requires n <= |artifacts|
    ensures ArtifactKeysOf(artifacts)[..n] == ArtifactKeysOf(artifacts[..n])
  {
    if n < |artifacts| {
      FirstKeys(artifacts[..|artifacts| - 1], n);
      assert artifacts[..|artifacts| - 1][..n] == artifacts[..n];
    } else {
      assert artifacts[..n] == artifacts;
    }
  }

  lemma {:induction false} DoneKeysAt(done: seq<PersistedObject>, key: string)
    ensures key in DoneKeys(done) <==> exists k :: 0 <= k < |done| && done[k].key == key
  {
    if done != [] {
      var n := |done| - 1;
      DoneKeysAt(done[..n], key);
      assert DoneKeys(done) == DoneKeys(done[..n]) + [done[n].key];
      if key in DoneKeys(done[..n]) {
        var k :| 0 <= k < n && done[..n][k].key == key;
        assert done[k].key == key;
      }
    }
  }

  /** A checkpoint lists the terminal among the persisted keys exactly when it was written. */
  lemma TerminalListedIff(m: TerminalManifest, done: seq<PersistedObject>, terminalWritten: bool)
    requires Follows(done, m.lists.artifacts) && WellAddressed(m)
    ensures TerminalKeyOf(m) in CheckpointOf(m, done, terminalWritten).persistedKeys <==> terminalWritten
    ensures forall k :: 0 <= k < |done| ==>
                          m.lists.artifacts[k].storageRef.key in CheckpointOf(m, done, terminalWritten).persistedKeys
  {
    var key := TerminalKeyOf(m);
    DoneKeysAt(done, key);
    if key in DoneKeys(done) {
      var k :| 0 <= k < |done| && done[k].key == key;
      assert Reports(done[k], m.lists.artifacts[k]) && Addressed(m.lists.artifacts[k]);
      ObjectsAreNotTerminals(m.lists.artifacts[k].sha256, key);
      TerminalsParse(m, key);
    }
    forall k | 0 <= k < |done| ensures m.lists.artifacts[k].storageRef.key in DoneKeys(done) {
      assert Reports(done[k], m.lists.artifacts[k]);
      DoneKeysAt(done, done[k].key);
    }
  }
}
