/** What the reader's and the object check's answers say of the stored object, stated without their branch order. */
module ReaderMeaning {
  import opened Bucket
  import opened Keys
  import opened Manifest
  import opened Texts
  import opened Wrappers

  /**
    A terminal is found exactly when its bytes fit, parse as the manifest whose own key this is, and hash to
    that manifest's digest, which is also the declared one if there is one.
   */
  lemma FoundIff(c: Codec, key: string, o: Stored, m: TerminalManifest, digest: string, byteSize: nat)
    ensures ReadStored(c, key, o) == Found(m, digest, byteSize) <==>
              && byteSize == |o.bytes| <= 8_388_608
              && c.read(o.bytes) == Ok(m)
              && TerminalKey(m.identity.source, m.identity.runId) == Ok(key)
              && digest == c.hash(o.bytes) == c.hash(c.encode(m))
              && (o.metadata.terminalDigest.Some? ==> o.metadata.terminalDigest.value == digest)
  {
    if TerminalKey(m.identity.source, m.identity.runId) == Ok(key) {
      ParseInvertsTerminalKey(key, KeyParts(m.identity.source, m.identity.runId));
    }
  }

  /** Whatever was stored under the key, what is found has the manifest's canonical bytes. */
  lemma FoundIsCanonical(s: Setting, key: string, o: Stored, m: TerminalManifest, digest: string, byteSize: nat)
    requires Lawful(s) && o.bytes in s.texts && s.codec.encode(m) in s.texts
    requires ReadStored(s.codec, key, o) == Found(m, digest, byteSize)
    ensures o.bytes == s.codec.encode(m)
  {
    FoundIff(s.codec, key, o, m, digest, byteSize);
    assert !Collides(s, o.bytes, s.codec.encode(m));
  }

  /** An object passes exactly when some digest vouches for it and nothing that it says of itself disagrees. */
  lemma VerifiesIff(o: Option<Stored>, sha256: string, byteSize: nat)
    ensures VerifyStoredObject(o, sha256, byteSize).None? <==>
              && o.Some? && |o.value.bytes| == byteSize
              && (o.value.native == Some(sha256) || o.value.metadata.sha256 == Some(sha256))
              && (o.value.native.Some? ==> o.value.native.value == sha256)
              && (o.value.metadata.sha256.Some? ==> o.value.metadata.sha256.value == sha256)
              && (o.value.metadata.byteSize.Some? ==> o.value.metadata.byteSize.value == DecimalText(byteSize))
  {
  }
}
