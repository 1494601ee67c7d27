/**
  The shared bucket as the writers of `writer.ts` can change it: every run is a log of the
  writes that took effect, whichever writer issued them, and whether or not it heard back.
*/
module Bucket {
  import opened Keys
  import opened Manifest
  import opened ManifestNormal
  import opened Texts
  import opened Wrappers

  type Bytes = seq<bv8>

  /** The custom metadata a reader looks at; each entry may be missing. */
  datatype Metadata = Metadata(sha256: Option<string>, byteSize: Option<string>, terminalDigest: Option<string>)

  /** What the bucket holds under a key; `native` is the checksum the bucket itself recorded. */
  datatype Stored = Stored(bytes: Bytes, native: Option<string>, metadata: Metadata)

  type Objects = map<string, Stored>

  datatype BlockReason =
    | TerminalTooLarge | TerminalUnreadable | TerminalNotJson | BadManifest(e: ManifestError)
    | TerminalIdentityMismatch | TerminalDigestMetadataMismatch | TerminalNotCanonical

  /**
    SHA-256, the canonical encoder, and the decoder with the manifest parser behind it;
    `normal` tells the manifests the parser can produce.
  */
  datatype Codec = Codec(hash: Bytes -> string, encode: TerminalManifest -> Bytes,
                         read: Bytes -> Result<TerminalManifest, BlockReason>, normal: TerminalManifest -> bool)

  /** A run's surroundings: the byte strings that occur in it, and what the bucket held when it began. */
  datatype Setting = Setting(codec: Codec, texts: set<Bytes>, start: Objects)

  ghost predicate Collides(s: Setting, a: Bytes, b: Bytes) {
    a in s.texts && b in s.texts && s.codec.hash(a) == s.codec.hash(b) && a != b
  }

  predicate WellAddressed(m: TerminalManifest) {
    && SourceId(m.identity.source)
    && RunId(m.identity.runId)
    && forall i :: 0 <= i < |m.lists.artifacts| ==> Addressed(m.lists.artifacts[i])
  }

  /** A manifest the parser can produce reads back from its encoding as it is. */
  ghost predicate ReadsBack(c: Codec, m: TerminalManifest) {
    c.normal(m) ==> c.read(c.encode(m)) == Ok(m) && WellAddressed(m)
  }

  ghost predicate Lawful(s: Setting) {
    && (forall b :: Sha256Hex(s.codec.hash(b)))
    && (forall a, b :: !Collides(s, a, b))
    && (forall m :: ReadsBack(s.codec, m))
  }

  // ----- keys and stored objects -----

  function ObjectKeyOf(sha256: string): string {
    var key := ObjectKey(sha256);
    if key.Ok? then key.value else ""
  }

  function TerminalKeyOf(m: TerminalManifest): string {
    var key := TerminalKey(m.identity.source, m.identity.runId);
    if key.Ok? then key.value else ""
  }

  function Lookup(objects: Objects, key: string): Option<Stored> {
    if key in objects then Some(objects[key]) else None
  }

  function ObjectMetadata(sha256: string, byteSize: nat): Metadata {
    Metadata(Some(sha256), Some(DecimalText(byteSize)), None)
  }

  function TerminalMetadata(digest: string, byteSize: nat): Metadata {
    Metadata(Some(digest), Some(DecimalText(byteSize)), Some(digest))
  }

  function Digest(c: Codec, m: TerminalManifest): string {
    c.hash(c.encode(m))
  }

  function TerminalObject(c: Codec, m: TerminalManifest): Stored {
    Stored(c.encode(m), Some(Digest(c, m)), TerminalMetadata(Digest(c, m), |c.encode(m)|))
  }

  datatype ObjectProblem = ObjectMissing | ObjectSizeMismatch | ObjectHashMismatch | ObjectDigestUnverifiable

  function VerifyStoredObject(o: Option<Stored>, sha256: string, byteSize: nat): Option<ObjectProblem> {
    if o.None? then Some(ObjectMissing)
    else if |o.value.bytes| != byteSize then Some(ObjectSizeMismatch)
    else
      var native, declared, size := o.value.native, o.value.metadata.sha256, o.value.metadata.byteSize;
      if native.None? && declared.None? then Some(ObjectDigestUnverifiable)
      else if native.Some? && native.value != sha256 then Some(ObjectHashMismatch)
      else if declared.Some? && declared.value != sha256 then Some(ObjectHashMismatch)
      else if size.Some? && size.value != DecimalText(byteSize) then Some(ObjectSizeMismatch)
      else None
  }

  /** An object written with its own metadata passes the check of exactly its own digest and size. */
  lemma OwnMetadataVerifiesIff(bytes: Bytes, native: Option<string>, declared: string, sha256: string, byteSize: nat)
    requires native == None || native == Some(declared)
    ensures VerifyStoredObject(Some(Stored(bytes, native, ObjectMetadata(declared, |bytes|))), sha256, byteSize) == None
            <==> declared == sha256 && |bytes| == byteSize
  {
  }

  /** The object an artifact names is there and agrees with it. */
  predicate VerifiedAt(objects: Objects, a: Artifact) {
    VerifyStoredObject(Lookup(objects, a.storageRef.key), a.sha256, a.byteSize) == None
  }

  predicate AllVerified(objects: Objects, artifacts: seq<Artifact>) {
    forall i :: 0 <= i < |artifacts| ==> VerifiedAt(objects, artifacts[i])
  }

  // ----- the reader -----

  const MAX_TERMINAL_BYTES := 8 * 1024 * 1024

  datatype ReadResult = Found(manifest: TerminalManifest, digest: string, byteSize: nat) | Missing | Blocked(reason: BlockReason)

  predicate Identifies(key: string, m: TerminalManifest) {
    var parts := ParseTerminalKey(key);
    && parts.Some?
    && parts.value.source == m.identity.source
    && parts.value.runId == m.identity.runId
    && TerminalKey(m.identity.source, m.identity.runId) == Ok(key)
  }

  /** What the reader makes of a stored terminal whose body it could read. */
  function ReadStored(c: Codec, key: string, o: Stored): ReadResult {
    if |o.bytes| > MAX_TERMINAL_BYTES then Blocked(TerminalTooLarge)
    else
      var parsed := c.read(o.bytes);
      if parsed.Err? then Blocked(parsed.error)
      else if !Identifies(key, parsed.value) then Blocked(TerminalIdentityMismatch)
      else
        var digest := Digest(c, parsed.value);
        var declared := o.metadata.terminalDigest;
        if declared.Some? && declared.value != digest then Blocked(TerminalDigestMetadataMismatch)
        else if c.hash(o.bytes) != digest then Blocked(TerminalNotCanonical)
        else Found(parsed.value, digest, |o.bytes|)
  }

  function ReadTerminalAt(c: Codec, objects: Objects, key: string): ReadResult {
    var o := Lookup(objects, key);
    if o.None? then Missing else ReadStored(c, key, o.value)
  }

  // ----- what writers can do -----

  /**
    The writes that can take effect.  A single put is refused by the bucket unless the key is free
    and the bytes have the declared digest; completing a multipart upload is refused for nothing.
  */
  datatype Write = PutObject(bytes: Bytes) | CompleteObject(bytes: Bytes) | PutTerminal(manifest: TerminalManifest)

  function KeyOfWrite(s: Setting, w: Write): string {
    match w
    case PutObject(bytes) => ObjectKeyOf(s.codec.hash(bytes))
    case CompleteObject(bytes) => ObjectKeyOf(s.codec.hash(bytes))
    case PutTerminal(m) => TerminalKeyOf(m)
  }

  function Written(s: Setting, w: Write): Stored {
    match w
    case PutObject(bytes) =>
      Stored(bytes, Some(s.codec.hash(bytes)), ObjectMetadata(s.codec.hash(bytes), |bytes|))
    case CompleteObject(bytes) =>
      Stored(bytes, None, ObjectMetadata(s.codec.hash(bytes), |bytes|))
    case PutTerminal(m) =>
      TerminalObject(s.codec, m)
  }

  /** What the writer has established before it issues the write. */
  predicate Ready(s: Setting, objects: Objects, w: Write) {
    match w
    case PutObject(bytes) => bytes in s.texts
    case CompleteObject(bytes) => bytes in s.texts && KeyOfWrite(s, w) !in s.start
    case PutTerminal(m) => s.codec.normal(m) && s.codec.encode(m) in s.texts && AllVerified(objects, m.lists.artifacts)
  }

  predicate Enabled(s: Setting, objects: Objects, w: Write) {
    Ready(s, objects, w) && (w.CompleteObject? || KeyOfWrite(s, w) !in objects)
  }

  function Effect(s: Setting, objects: Objects, w: Write): Objects {
    objects[KeyOfWrite(s, w) := Written(s, w)]
  }

  /** The bucket after a log of writes. */
  function Replay(s: Setting, log: seq<Write>): Objects {
    if log == [] then s.start else Effect(s, Replay(s, log[..|log| - 1]), log[|log| - 1])
  }

  /** Every write of the log was possible when it took effect. */
  predicate Possible(s: Setting, log: seq<Write>) {
    log == [] || (Possible(s, log[..|log| - 1]) && Enabled(s, Replay(s, log[..|log| - 1]), log[|log| - 1]))
  }

  // ----- the invariant -----

  /** An object stored under the digest of its own bytes. */
  predicate ObjectGood(s: Setting, key: string, o: Stored) {
    var sha256 := s.codec.hash(o.bytes);
    && o.bytes in s.texts
    && ObjectKey(sha256) == Ok(key)
    && o.metadata == ObjectMetadata(sha256, |o.bytes|)
    && (o.native == None || o.native == Some(sha256))
  }

  /** `o` is the terminal of `m`, every artifact of which is there. */
  predicate TerminalOf(s: Setting, objects: Objects, key: string, o: Stored, m: TerminalManifest) {
    && s.codec.normal(m)
    && s.codec.encode(m) in s.texts
    && TerminalKey(m.identity.source, m.identity.runId) == Ok(key)
    && o == TerminalObject(s.codec, m)
    && AllVerified(objects, m.lists.artifacts)
  }

  ghost predicate TerminalGood(s: Setting, objects: Objects, key: string, o: Stored) {
    exists m :: TerminalOf(s, objects, key, o, m)
  }

  ghost predicate GoodAt(s: Setting, objects: Objects, key: string) {
    key in objects ==>
      if key in s.start then objects[key] == s.start[key]
      else ObjectGood(s, key, objects[key]) || TerminalGood(s, objects, key, objects[key])
  }

  ghost predicate Inv(s: Setting, objects: Objects) {
    && (forall key :: key in s.start ==> key in objects)
    && (forall key :: GoodAt(s, objects, key))
  }

  /** Between two moments a stored object stays as it is, but for a checksum the bucket no longer knows. */
  predicate KeptAt(before: Objects, after: Objects, key: string) {
    key in before ==>
      && key in after
      && (|| after[key] == before[key]
          || (&& after[key] == before[key].(native := None)
              && before[key].metadata.sha256.Some?
              && ParseTerminalKey(key) == None))
  }

  ghost predicate Kept(before: Objects, after: Objects) {
    forall key :: KeptAt(before, after, key)
  }

  lemma VerifiedStays(before: Objects, after: Objects, a: Artifact)
    requires KeptAt(before, after, a.storageRef.key) && VerifiedAt(before, a)
    ensures VerifiedAt(after, a)
  {
  }

  lemma AllVerifiedStays(before: Objects, after: Objects, artifacts: seq<Artifact>)
    requires Kept(before, after) && AllVerified(before, artifacts)
    ensures AllVerified(after, artifacts)
  {
    forall i | 0 <= i < |artifacts| ensures VerifiedAt(after, artifacts[i]) {
      assert KeptAt(before, after, artifacts[i].storageRef.key);
      VerifiedStays(before, after, artifacts[i]);
    }
  }

  lemma KeptChains(a: Objects, b: Objects, c: Objects)
    requires Kept(a, b) && Kept(b, c)
    ensures Kept(a, c)
  {
    forall key ensures KeptAt(a, c, key) {
      assert KeptAt(a, b, key) && KeptAt(b, c, key);
    }
  }

  /** A terminal's key is never an object's. */
  lemma ObjectsAreNotTerminals(sha256: string, key: string)
    requires ObjectKey(sha256) == Ok(key)
    ensures ParseTerminalKey(key) == None
  {
    ParsesTerminalsOnly(ObjectAt(sha256));
  }

  lemma TerminalsParse(m: TerminalManifest, key: string)
    requires TerminalKey(m.identity.source, m.identity.runId) == Ok(key)
    ensures ParseTerminalKey(key) == Some(KeyParts(m.identity.source, m.identity.runId))
  {
    ParseInvertsTerminalKey(key, KeyParts(m.identity.source, m.identity.runId));
  }

  lemma SameObjectKey(a: string, b: string, key: string)
    requires ObjectKey(a) == Ok(key) && ObjectKey(b) == Ok(key)
    ensures a == b
  {
    KeysAreDistinct(ObjectAt(a), ObjectAt(b));
  }

  /** Completing an upload over a stored object writes the bytes that are already there. */
  lemma CompletionKeeps(s: Setting, objects: Objects, bytes: Bytes, key: string)
    requires Lawful(s) && Inv(s, objects) && Enabled(s, objects, CompleteObject(bytes))
    requires key == ObjectKeyOf(s.codec.hash(bytes)) && key in objects
    ensures objects[key].bytes == bytes
    ensures Written(s, CompleteObject(bytes)) == objects[key].(native := None)
    ensures ParseTerminalKey(key) == None && objects[key].metadata.sha256.Some?
  {
    var sha256 := s.codec.hash(bytes);
    var o := objects[key];
    assert ObjectKey(sha256) == Ok(key);
    ObjectsAreNotTerminals(sha256, key);
    assert GoodAt(s, objects, key);
    if TerminalGood(s, objects, key, o) {
      var m :| TerminalOf(s, objects, key, o, m);
      TerminalsParse(m, key);
    }
    assert ObjectGood(s, key, o);
    SameObjectKey(sha256, s.codec.hash(o.bytes), key);
    assert !Collides(s, bytes, o.bytes);
  }

  lemma WriteKeeps(s: Setting, objects: Objects, w: Write)
    requires Lawful(s) && Inv(s, objects) && Enabled(s, objects, w)
    ensures Kept(objects, Effect(s, objects, w))
  {
    var key := KeyOfWrite(s, w);
    if key in objects {
      CompletionKeeps(s, objects, w.bytes, key);
    }
    forall k ensures KeptAt(objects, Effect(s, objects, w), k) {
    }
  }

  lemma GoodStays(s: Setting, before: Objects, after: Objects, key: string)
    requires Kept(before, after) && GoodAt(s, before, key)
    requires key in before && key in after && after[key] == before[key]
    ensures GoodAt(s, after, key)
  {
    if key !in s.start && TerminalGood(s, before, key, before[key]) {
      var m :| TerminalOf(s, before, key, before[key], m);
      AllVerifiedStays(before, after, m.lists.artifacts);
      assert TerminalOf(s, after, key, after[key], m);
    }
  }

  lemma NormalIdentity(s: Setting, m: TerminalManifest)
    requires Lawful(s) && s.codec.normal(m)
    ensures WellAddressed(m)
    ensures TerminalKey(m.identity.source, m.identity.runId) == Ok(TerminalKeyOf(m))
  {
    assert ReadsBack(s.codec, m);
  }

  lemma WrittenIsGood(s: Setting, objects: Objects, w: Write)
    requires Lawful(s) && Inv(s, objects) && Enabled(s, objects, w)
    ensures GoodAt(s, Effect(s, objects, w), KeyOfWrite(s, w))
  {
    var after, key := Effect(s, objects, w), KeyOfWrite(s, w);
    assert GoodAt(s, objects, key);
    match w
    case PutObject(bytes) =>
      assert Sha256Hex(s.codec.hash(bytes));
      assert ObjectGood(s, key, after[key]);
    case CompleteObject(bytes) =>
      assert Sha256Hex(s.codec.hash(bytes));
      assert ObjectGood(s, key, after[key]);
    case PutTerminal(m) =>
      NormalIdentity(s, m);
      WriteKeeps(s, objects, w);
      AllVerifiedStays(objects, after, m.lists.artifacts);
      assert TerminalOf(s, after, key, after[key], m);
  }

  lemma InvStep(s: Setting, objects: Objects, w: Write)
    requires Lawful(s) && Inv(s, objects) && Enabled(s, objects, w)
    ensures Inv(s, Effect(s, objects, w)) && Kept(objects, Effect(s, objects, w))
  {
    var after := Effect(s, objects, w);
    WriteKeeps(s, objects, w);
    forall key ensures GoodAt(s, after, key) {
      assert GoodAt(s, objects, key);
      if key == KeyOfWrite(s, w) {
        WrittenIsGood(s, objects, w);
      } else if key in objects {
        GoodStays(s, objects, after, key);
      }
    }
  }

  lemma {:induction false} InvAlways(s: Setting, log: seq<Write>)
    requires Lawful(s) && Possible(s, log)
    ensures Inv(s, Replay(s, log))
  {
    if log != [] {
      var front := log[..|log| - 1];
      InvAlways(s, front);
      InvStep(s, Replay(s, front), log[|log| - 1]);
    }
  }
}
