/** What holds of the bucket in every run of its writers. */
module BucketRuns {
  import opened Bucket
  import opened Keys
  import opened Manifest
  import opened ManifestNormal
  import opened Wrappers

  ghost predicate Run(s: Setting, log: seq<Write>) {
    Lawful(s) && Possible(s, log)
  }

  lemma {:induction false} PrefixIsPossible(s: Setting, log: seq<Write>, n: nat)
    requires Possible(s, log) && n <= |log|
    ensures Possible(s, log[..n])
  {
    if n < |log| {
      var front := log[..|log| - 1];
      PrefixIsPossible(s, front, n);
      assert front[..n] == log[..n];
    } else {
      assert log[..n] == log;
    }
  }

  /** Nothing stored is ever lost or replaced by other bytes. */
  lemma {:induction false} NothingIsLost(s: Setting, log: seq<Write>, n: nat)
    requires Run(s, log) && n <= |log|
    ensures Kept(Replay(s, log[..n]), Replay(s, log))
  {
    if n < |log| {
      var front := log[..|log| - 1];
      NothingIsLost(s, front, n);
      assert front[..n] == log[..n];
      InvAlways(s, front);
      InvStep(s, Replay(s, front), log[|log| - 1]);
      KeptChains(Replay(s, log[..n]), Replay(s, front), Replay(s, log));
    } else {
      assert log[..n] == log;
    }
  }

  /** An existing terminal is never changed. */
  lemma TerminalsNeverChange(s: Setting, log: seq<Write>, n: nat, key: string)
    requires Run(s, log) && n <= |log|
    requires ParseTerminalKey(key).Some? && key in Replay(s, log[..n])
    ensures key in Replay(s, log) && Replay(s, log)[key] == Replay(s, log[..n])[key]
  {
    NothingIsLost(s, log, n);
    assert KeptAt(Replay(s, log[..n]), Replay(s, log), key);
  }

  /** The artifact is stored, and unless it was there before the run, with bytes of its digest and size. */
  predicate ArtifactStored(s: Setting, objects: Objects, a: Artifact) {
    var key := a.storageRef.key;
    && key in objects
    && |objects[key].bytes| == a.byteSize
    && (key !in s.start ==> s.codec.hash(objects[key].bytes) == a.sha256)
  }

  lemma VerifiedIsStored(s: Setting, objects: Objects, a: Artifact)
    requires Lawful(s) && Inv(s, objects) && Addressed(a) && VerifiedAt(objects, a)
    ensures ArtifactStored(s, objects, a)
  {
    var key := a.storageRef.key;
    if key !in s.start {
      assert GoodAt(s, objects, key);
      ObjectsAreNotTerminals(a.sha256, key);
      if TerminalGood(s, objects, key, objects[key]) {
        var m :| TerminalOf(s, objects, key, objects[key], m);
        TerminalsParse(m, key);
      }
      SameObjectKey(a.sha256, s.codec.hash(objects[key].bytes), key);
    }
  }

  /**
    The point of writing the terminal last: in every interleaving of writers, lost answers and
    crashes, a terminal that is stored was written by a writer that had every artifact it names stored,
    and they still are.
  */
  lemma StoredTerminalIsComplete(s: Setting, log: seq<Write>, key: string) returns (m: TerminalManifest)
    requires Run(s, log)
    requires ParseTerminalKey(key).Some? && key in Replay(s, log) && key !in s.start
    ensures TerminalOf(s, Replay(s, log), key, Replay(s, log)[key], m)
    ensures forall i :: 0 <= i < |m.lists.artifacts| ==> ArtifactStored(s, Replay(s, log), m.lists.artifacts[i])
  {
    var objects := Replay(s, log);
    InvAlways(s, log);
    assert GoodAt(s, objects, key);
    if ObjectGood(s, key, objects[key]) {
      ObjectsAreNotTerminals(s.codec.hash(objects[key].bytes), key);
    }
    m :| TerminalOf(s, objects, key, objects[key], m);
    NormalIdentity(s, m);
    forall i | 0 <= i < |m.lists.artifacts| ensures ArtifactStored(s, objects, m.lists.artifacts[i]) {
      VerifiedIsStored(s, objects, m.lists.artifacts[i]);
    }
  }

  /** The reader finds a terminal this package wrote, whole and under its own digest, unless it is over the limit. */
  lemma ReaderFinds(s: Setting, key: string, m: TerminalManifest)
    requires Lawful(s) && s.codec.normal(m)
    requires TerminalKey(m.identity.source, m.identity.runId) == Ok(key)
    ensures ReadStored(s.codec, key, TerminalObject(s.codec, m)) ==
            if |s.codec.encode(m)| > MAX_TERMINAL_BYTES then Blocked(TerminalTooLarge)
            else OwnTerminal(s, m)
  {
    assert ReadsBack(s.codec, m);
    TerminalsParse(m, key);
  }

  predicate PutsTerminalAt(s: Setting, w: Write, key: string) {
    w.PutTerminal? && KeyOfWrite(s, w) == key
  }

  lemma {:induction false} PutIsThere(s: Setting, log: seq<Write>, j: nat)
    requires Run(s, log) && j < |log|
    ensures KeyOfWrite(s, log[j]) in Replay(s, log)
  {
    var front := log[..|log| - 1];
    if j < |front| {
      PutIsThere(s, front, j);
      assert KeyOfWrite(s, front[j]) in Effect(s, Replay(s, front), log[|log| - 1]);
    }
  }

  lemma FirstPut(s: Setting, front: seq<Write>, w: Write, key: string, j: nat)
    requires Run(s, front) && Enabled(s, Replay(s, front), w) && PutsTerminalAt(s, w, key) && j < |front|
    ensures !PutsTerminalAt(s, front[j], key)
  {
    PutIsThere(s, front, j);
  }

  lemma OtherWritesMiss(s: Setting, w: Write, key: string)
    requires Lawful(s) && ParseTerminalKey(key).Some? && !PutsTerminalAt(s, w, key)
    ensures KeyOfWrite(s, w) != key
  {
    if !w.PutTerminal? {
      ObjectsAreNotTerminals(s.codec.hash(w.bytes), KeyOfWrite(s, w));
    }
  }

  predicate PutAt(s: Setting, log: seq<Write>, key: string, j: int) {
    0 <= j < |log| && PutsTerminalAt(s, log[j], key)
  }

  /** Write `i`, and no other write of the log, put the terminal that is stored under the key. */
  ghost predicate Winner(s: Setting, log: seq<Write>, key: string, i: nat) {
    && PutAt(s, log, key, i)
    && Lookup(Replay(s, log), key) == Some(Written(s, log[i]))
    && forall j :: PutAt(s, log, key, j) ==> j == i
  }

  lemma LastWins(s: Setting, front: seq<Write>, w: Write, key: string)
    requires Run(s, front) && Enabled(s, Replay(s, front), w) && PutsTerminalAt(s, w, key)
    ensures Winner(s, front + [w], key, |front|)
  {
    var log := front + [w];
    assert log[..|log| - 1] == front;
    forall j | PutAt(s, log, key, j) ensures j == |front| {
      if j < |front| {
        FirstPut(s, front, w, key, j);
      }
    }
  }

  lemma WinnerStays(s: Setting, front: seq<Write>, w: Write, key: string, i: nat)
    requires Lawful(s) && ParseTerminalKey(key).Some? && !PutsTerminalAt(s, w, key) && Winner(s, front, key, i)
    ensures Winner(s, front + [w], key, i)
  {
    var log := front + [w];
    assert log[..|log| - 1] == front;
    OtherWritesMiss(s, w, key);
    forall j | PutAt(s, log, key, j) ensures j == i {
      assert PutAt(s, front, key, j);
    }
  }

  /** The stored terminal was put by exactly one write of the log. */
  lemma {:induction false} OneWriteWins(s: Setting, log: seq<Write>, key: string) returns (i: nat)
    requires Run(s, log)
    requires ParseTerminalKey(key).Some? && key in Replay(s, log) && key !in s.start
    ensures Winner(s, log, key, i)
  {
    var front, last := log[..|log| - 1], log[|log| - 1];
    assert front + [last] == log;
    if PutsTerminalAt(s, last, key) {
      LastWins(s, front, last, key);
      i := |front|;
    } else {
      OtherWritesMiss(s, last, key);
      i := OneWriteWins(s, front, key);
      WinnerStays(s, front, last, key, i);
    }
  }

  /** Whatever the reader finds at a run's key it finds for ever: at most one digest wins. */
  lemma OneDigestWins(s: Setting, log: seq<Write>, n: nat, key: string)
    requires Run(s, log) && n <= |log|
    requires ReadTerminalAt(s.codec, Replay(s, log[..n]), key).Found?
    ensures ReadTerminalAt(s.codec, Replay(s, log), key) == ReadTerminalAt(s.codec, Replay(s, log[..n]), key)
  {
    TerminalsNeverChange(s, log, n, key);
  }

  /** Two different manifests have different digests. */
  lemma DigestsTellApart(s: Setting, m: TerminalManifest, rival: TerminalManifest)
    requires Lawful(s) && s.codec.normal(m) && s.codec.normal(rival)
    requires s.codec.encode(m) in s.texts && s.codec.encode(rival) in s.texts
    ensures Digest(s.codec, m) == Digest(s.codec, rival) <==> m == rival
  {
    if Digest(s.codec, m) == Digest(s.codec, rival) {
      assert !Collides(s, s.codec.encode(m), s.codec.encode(rival));
      assert ReadsBack(s.codec, m) && ReadsBack(s.codec, rival);
    }
  }

  function OwnTerminal(s: Setting, m: TerminalManifest): ReadResult {
    Found(m, Digest(s.codec, m), |s.codec.encode(m)|)
  }

  /** Some write of the log put another manifest's terminal for the same run. */
  ghost predicate RivalWrote(s: Setting, log: seq<Write>, m: TerminalManifest) {
    exists i :: PutAt(s, log, TerminalKeyOf(m), i) && log[i].manifest != m
  }

  /**
    When nothing was stored for the run beforehand, its stored terminal carries `m`'s digest exactly
    when no other manifest's terminal was put.  So writers that share one plan never meet a conflict.
  */
  lemma OwnDigestIffNoRival(s: Setting, log: seq<Write>, m: TerminalManifest)
    requires Run(s, log) && s.codec.normal(m) && s.codec.encode(m) in s.texts
    requires |s.codec.encode(m)| <= MAX_TERMINAL_BYTES
    requires TerminalKeyOf(m) in Replay(s, log) && TerminalKeyOf(m) !in s.start
    ensures (ReadTerminalAt(s.codec, Replay(s, log), TerminalKeyOf(m)) == OwnTerminal(s, m)) <==> !RivalWrote(s, log, m)
    ensures RivalWrote(s, log, m) ==>
              var r := ReadTerminalAt(s.codec, Replay(s, log), TerminalKeyOf(m));
              r.Found? ==> r.digest != Digest(s.codec, m)
  {
    var key := TerminalKeyOf(m);
    NormalIdentity(s, m);
    TerminalsParse(m, key);
    var i := OneWriteWins(s, log, key);
    var winner := StoredTerminalIsComplete(s, log, key);
    ReaderFinds(s, key, winner);
    PutsNormal(s, log, i);
    NormalIdentity(s, log[i].manifest);
    ReaderFinds(s, key, log[i].manifest);
    if log[i].manifest == m {
      assert !RivalWrote(s, log, m);
    } else {
      assert RivalWrote(s, log, m);
      DigestsTellApart(s, m, log[i].manifest);
    }
  }

  lemma {:induction false} PutsNormal(s: Setting, log: seq<Write>, i: nat)
    requires Possible(s, log) && i < |log| && log[i].PutTerminal?
    ensures s.codec.normal(log[i].manifest) && s.codec.encode(log[i].manifest) in s.texts
  {
    PrefixIsPossible(s, log, i + 1);
    assert log[..i + 1][i] == log[i];
  }
}
