/** What a writer is asked to persist, the manifest that describes it, and the codec it is written with. */
module TerminalPlan {
  import opened Bucket
  import opened Keys
  import opened Manifest
  import opened ManifestNormal
  import opened Sorting
  import opened Wrappers

  datatype Body = Whole(bytes: Bytes) | Parts(parts: seq<Bytes>)

  datatype PlanArtifact = PlanArtifact(artifactKey: string, sha256: string, byteSize: int, mediaType: string,
                                       role: string, unitKey: Option<string>, body: Body)

  /** Everything the terminal states about the run but its artifacts, and the artifacts with their bytes. */
  datatype Plan = Plan(run: map<Field, Value>, artifacts: seq<PlanArtifact>)

  function Concat(parts: seq<Bytes>): Bytes {
    if parts == [] then [] else Concat(parts[..|parts| - 1]) + parts[|parts| - 1]
  }

  function BodyBytes(body: Body): Bytes {
    match body
    case Whole(bytes) => bytes
    case Parts(parts) => Concat(parts)
  }

  function PlannedValue(a: PlanArtifact): Result<Value, ManifestError> {
    var key := ObjectKey(a.sha256);
    if key.Err? then Err(KeyProblem(key.error))
    else
      var required := map[ArtifactKeyField := Text(a.artifactKey),
                          StorageRefField := StorageRefValue(StorageRef("DATA", key.value)),
                          Sha256Field := Text(a.sha256), ByteSizeField := Number(a.byteSize),
                          MediaTypeField := Text(a.mediaType), RoleField := Text(a.role)];
      Ok(Record(if a.unitKey.None? then required else required[UnitKeyField := Text(a.unitKey.value)]))
  }

  function PlannedValues(artifacts: seq<PlanArtifact>): Result<seq<Value>, ManifestError> {
    if artifacts == [] then Ok([])
    else
      var first :- PlannedValue(artifacts[0]);
      var rest :- PlannedValues(artifacts[1..]);
      Ok([first] + rest)
  }

  /** What the terminal of this plan will say, or why the plan cannot have one. */
  function PlanManifest(dates: Dates, plan: Plan): Result<TerminalManifest, ManifestError> {
    var values :- PlannedValues(plan.artifacts);
    Parsed(dates, Record(plan.run[ManifestVersionField := Text(TERMINAL_MANIFEST_VERSION)][ArtifactsField := List(values)]))
  }

  /** `new Map(entries).get(key)`: the last artifact with the key. */
  function FindPlanned(artifacts: seq<PlanArtifact>, artifactKey: string): Option<PlanArtifact> {
    if artifacts == [] then None
    else if artifacts[|artifacts| - 1].artifactKey == artifactKey then Some(artifacts[|artifacts| - 1])
    else FindPlanned(artifacts[..|artifacts| - 1], artifactKey)
  }

  predicate Matches(a: Artifact, p: PlanArtifact) {
    a.artifactKey == p.artifactKey && a.sha256 == p.sha256 && a.byteSize == p.byteSize
  }

  /** The manifest's artifact is the one the plan has under its key. */
  predicate Planned(plan: Plan, a: Artifact) {
    var found := FindPlanned(plan.artifacts, a.artifactKey);
    found.Some? && Matches(a, found.value) && found.value in plan.artifacts
  }

  lemma {:induction false} PlannedValuesMeaning(artifacts: seq<PlanArtifact>)
    requires PlannedValues(artifacts).Ok?
    ensures |PlannedValues(artifacts).value| == |artifacts|
    ensures forall j :: 0 <= j < |artifacts| ==> PlannedValue(artifacts[j]) == Ok(PlannedValues(artifacts).value[j])
  {
    if artifacts != [] {
      PlannedValuesMeaning(artifacts[1..]);
    }
  }

  lemma ParsedAsPlanned(p: PlanArtifact, v: Value, a: Artifact)
    requires PlannedValue(p) == Ok(v) && ParseArtifact(v) == Ok(a)
    ensures Matches(a, p)
  {
  }

  lemma {:induction false} FindPlannedIs(artifacts: seq<PlanArtifact>, j: nat)
    requires j < |artifacts|
    requires forall k :: j < k < |artifacts| ==> artifacts[k].artifactKey != artifacts[j].artifactKey
    ensures FindPlanned(artifacts, artifacts[j].artifactKey) == Some(artifacts[j])
  {
    if j < |artifacts| - 1 {
      FindPlannedIs(artifacts[..|artifacts| - 1], j);
    }
  }

  lemma ParsedIsPlanned(plan: Plan, parsed: seq<Artifact>, j: nat)
    requires |parsed| == |plan.artifacts| && j < |parsed| && DistinctKeys(parsed, ArtifactKeyOf)
    requires forall k :: 0 <= k < |parsed| ==> Matches(parsed[k], plan.artifacts[k])
    ensures Planned(plan, parsed[j])
  {
    forall k | j < k < |parsed| ensures plan.artifacts[k].artifactKey != plan.artifacts[j].artifactKey {
      DistinctKeysDiffer(parsed, ArtifactKeyOf, j, k);
    }
    FindPlannedIs(plan.artifacts, j);
  }

  lemma ArtifactsArePlanned(plan: Plan, values: seq<Value>, artifacts: seq<Artifact>)
    requires PlannedValues(plan.artifacts) == Ok(values) && ArtifactsOf(List(values)) == Ok(artifacts)
    ensures forall i :: 0 <= i < |artifacts| ==> Planned(plan, artifacts[i])
  {
    var parsed := ParseAll(values, ParseArtifact).value;
    PlannedValuesMeaning(plan.artifacts);
    ParseAllMeaning(values, ParseArtifact);
    forall j | 0 <= j < |values| ensures Matches(parsed[j], plan.artifacts[j]) {
      ParsedAsPlanned(plan.artifacts[j], values[j], parsed[j]);
    }
    forall i | 0 <= i < |artifacts| ensures Planned(plan, artifacts[i]) {
      assert artifacts[i] in multiset(parsed);
      var j :| 0 <= j < |parsed| && parsed[j] == artifacts[i];
      ParsedIsPlanned(plan, parsed, j);
    }
  }

  // ----- the codec -----

  /** SHA-256, the canonical encoder, UTF-8 and JSON decoding, and the platform's dates. */
  datatype Platform = Platform(hash: Bytes -> string, encode: TerminalManifest -> Bytes, decode: Bytes -> Option<Value>,
                               dates: Dates)

  /** The manifest is what the parser makes of it. */
  predicate Normal(dates: Dates, m: TerminalManifest) {
    Parsed(dates, ManifestValue(m)) == Ok(m)
  }

  function ReadBytes(p: Platform, bytes: Bytes): Result<TerminalManifest, BlockReason> {
    var value := p.decode(bytes);
    if value.None? then Err(TerminalNotJson)
    else
      var parsed := Parsed(p.dates, value.value);
      if parsed.Err? then Err(BadManifest(parsed.error)) else Ok(parsed.value)
  }

  function CodecOf(p: Platform): Codec {
    Codec(p.hash, p.encode, (bytes: Bytes) => ReadBytes(p, bytes), (m: TerminalManifest) => Normal(p.dates, m))
  }

  /** Decoding an encoded manifest gives back a value that says what the manifest says. */
  ghost predicate DecodesBack(p: Platform, m: TerminalManifest) {
    Normal(p.dates, m) ==> p.decode(p.encode(m)).Some? && Writes(p.decode(p.encode(m)).value, m)
  }

  /** What is asked of the platform: digests of the right shape, no collision among the texts, and a left inverse. */
  ghost predicate Dependable(p: Platform, s: Setting) {
    && s.codec == CodecOf(p)
    && (forall b :: Sha256Hex(p.hash(b)))
    && (forall a, b :: !Collides(s, a, b))
    && (forall m :: DecodesBack(p, m))
  }

  lemma NormalIsWellAddressed(dates: Dates, m: TerminalManifest)
    requires Normal(dates, m)
    ensures WellAddressed(m)
  {
    var v := ManifestValue(m);
    ParsedParts(dates, v, m);
    IdentityIsValid(v, m.identity);
    ListParts(v, m.lists);
    ArtifactsAreAddressed(Get(v, ArtifactsField), m.lists.artifacts);
  }

  /** A platform with a decodable encoder makes a codec that reads its own manifests back. */
  lemma DependableIsLawful(p: Platform, s: Setting)
    requires Dependable(p, s)
    ensures Lawful(s)
  {
    forall m ensures ReadsBack(s.codec, m) {
      if Normal(p.dates, m) {
        assert DecodesBack(p, m);
        ParsedIsNormal(p.dates, ManifestValue(m), m, p.decode(p.encode(m)).value);
        NormalIsWellAddressed(p.dates, m);
      }
    }
  }

  /** What planning promises the writer: a normal manifest whose artifacts are the plan's, each under its own key. */
  ghost predicate Describes(c: Codec, plan: Plan, m: TerminalManifest) {
    && c.normal(m)
    && (forall i :: 0 <= i < |m.lists.artifacts| ==> Planned(plan, m.lists.artifacts[i]))
    && Ascending(m.lists.artifacts, ArtifactKeyOf)
  }

  lemma PlannedManifestDescribes(p: Platform, plan: Plan, m: TerminalManifest)
    requires PlanManifest(p.dates, plan) == Ok(m)
    ensures Describes(CodecOf(p), plan, m)
  {
    var values := PlannedValues(plan.artifacts).value;
    var body := Record(plan.run[ManifestVersionField := Text(TERMINAL_MANIFEST_VERSION)][ArtifactsField := List(values)]);
    ParsedParts(p.dates, body, m);
    ListParts(body, m.lists);
    ArtifactsArePlanned(plan, values, m.lists.artifacts);
    ArtifactsAreAddressed(List(values), m.lists.artifacts);
    ManifestValueWrites(m);
    ParsedIsNormal(p.dates, body, m, ManifestValue(m));
  }
}
