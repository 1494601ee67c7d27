/**
  The normal form of a terminal manifest: parsing a parsed manifest changes nothing, and
  no reordering of what a caller lists changes what is parsed.
*/
module ManifestNormal {
  import opened Wrappers
  import opened Keys
  import opened Sorting
  import opened Manifest

  // ----- writing a manifest back as a value -----

  function With(fields: map<Field, Value>, f: Field, text: Option<string>): map<Field, Value> {
    if text.None? then fields else fields[f := Text(text.value)]
  }

  function Nullable(text: Option<string>): Value {
    if text.None? then Null else Text(text.value)
  }

  function ListValue<T>(xs: seq<T>, value: T -> Value): (items: seq<Value>)
    ensures |items| == |xs|
  {
    if xs == [] then [] else [value(xs[0])] + ListValue(xs[1..], value)
  }

  function TextValue(s: string): Value {
    Text(s)
  }

  function StorageRefValue(ref: StorageRef): Value {
    Record(map[StoreField := Text(ref.store), KeyField := Text(ref.key)])
  }

  function ScopeValue(s: RequestedScope): Value {
    Record(map[ScopeKindField := Text(s.scopeKind), StartValueField := Nullable(s.startValue),
               EndValueField := Nullable(s.endValue), UnitKeysField := List(ListValue(s.unitKeys, TextValue))])
  }

  function ArtifactValue(a: Artifact): Value {
    var required := map[ArtifactKeyField := Text(a.artifactKey), StorageRefField := StorageRefValue(a.storageRef),
                        Sha256Field := Text(a.sha256), ByteSizeField := Number(a.byteSize),
                        MediaTypeField := Text(a.mediaType), RoleField := Text(a.role)];
    Record(With(required, UnitKeyField, a.unitKey))
  }

  function UnitValue(u: Unit): Value {
    var required := map[UnitKeyField := Text(u.unitKey), UnitKindField := Text(u.unitKind),
                        ArtifactCountField := Number(u.artifactCount), CoverageStatusField := Text(u.coverageStatus)];
    Record(With(required, SafeErrorCodeField, u.safeErrorCode))
  }

  function RangeValue(r: Range): Value {
    var required := map[RangeKeyField := Text(r.rangeKey), RangeKindField := Text(r.rangeKind),
                        PrecisionField := Text(r.precision), BasisField := Text(r.basis),
                        StartValueField := Nullable(r.startValue), EndValueField := Nullable(r.endValue)];
    Record(With(required, UnitKeyField, r.unitKey))
  }

  function ReportValue(r: Report): Value {
    var required := map[ReportRefField := Text(r.reportRef), ReportKindField := Text(r.reportKind),
                        ScopeField := Text(r.scope), OutcomeField := Text(r.outcome)];
    var stored := if r.storageRef.None? then required
                  else required[StorageRefField := StorageRefValue(r.storageRef.value)];
    Record(With(With(stored, UnitKeyField, r.unitKey), SafeErrorCodeField, r.safeErrorCode))
  }

  function TransformationValue(t: Transformation): Value {
    Record(map[TransformationIdField := Text(t.transformationId), StepKindField := Text(t.stepKind),
               TransformerIdField := Text(t.transformerId), TransformerVersionField := Text(t.transformerVersion),
               InputArtifactKeysField := List(ListValue(t.inputArtifactKeys, TextValue)),
               OutputArtifactKeyField := Text(t.outputArtifactKey)])
  }

  function OptionalValue(text: Option<string>): Value {
    if text.None? then Undefined else Text(text.value)
  }

  /** What a manifest says under each name; an absent property reads as undefined. */
  function FieldValue(m: TerminalManifest, f: Field): Value {
    match f
    case ManifestVersionField => Text(TERMINAL_MANIFEST_VERSION)
    case PersistenceCompleteField => Bool(true)
    case SourceField => Text(m.identity.source)
    case ProducerField => Text(m.identity.producer)
    case ProducerVersionField => Text(m.identity.producerVersion)
    case RunIdField => Text(m.identity.runId)
    case AttemptIdField => Text(m.identity.attemptId)
    case OperationIdField => OptionalValue(m.identity.operationId)
    case AcquisitionSessionRefField => OptionalValue(m.identity.acquisitionSessionRef)
    case RequestedScopeField => ScopeValue(m.requestedScope)
    case StartedAtField => Text(m.window.startedAt)
    case CompletedAtField => Text(m.window.completedAt)
    case ProviderOutcomeField => Text(m.verdict.providerOutcome)
    case CoverageStatusField => Text(m.verdict.coverageStatus)
    case SafeErrorCodeField => OptionalValue(m.verdict.safeErrorCode)
    case ArtifactsField => List(ListValue(m.lists.artifacts, ArtifactValue))
    case UnitsField => List(ListValue(m.lists.units, UnitValue))
    case RangesField => List(ListValue(m.lists.ranges, RangeValue))
    case ReportsField => List(ListValue(m.lists.reports, ReportValue))
    case TransformationsField => List(ListValue(m.lists.transformations, TransformationValue))
    case _ => Undefined
  }

  const MANIFEST_FIELDS := [
    ManifestVersionField, SourceField, ProducerField, ProducerVersionField, RunIdField, AttemptIdField,
    OperationIdField, AcquisitionSessionRefField, RequestedScopeField, StartedAtField, CompletedAtField,
    ProviderOutcomeField, CoverageStatusField, PersistenceCompleteField, SafeErrorCodeField,
    ArtifactsField, UnitsField, RangesField, ReportsField, TransformationsField
  ]

  /** The named properties of the manifest that are not undefined. */
  function PropertiesOf(m: TerminalManifest, names: seq<Field>): (fields: map<Field, Value>)
    ensures forall f :: f in fields <==> f in names && FieldValue(m, f) != Undefined
    ensures forall f :: f in fields ==> fields[f] == FieldValue(m, f)
  {
    if names == [] then map[]
    else
      var rest := PropertiesOf(m, names[1..]);
      assert names == [names[0]] + names[1..];
      if FieldValue(m, names[0]) == Undefined then rest else rest[names[0] := FieldValue(m, names[0])]
  }

  /** The manifest as a caller would hand it in, or as `JSON.parse` reads it back. */
  function ManifestValue(m: TerminalManifest): Value {
    Record(PropertiesOf(m, MANIFEST_FIELDS))
  }

  predicate WritesIdentity(v: Value, i: Identity)
    requires v.Record?
  {
    && Get(v, SourceField) == Text(i.source)
    && Get(v, ProducerField) == Text(i.producer)
    && Get(v, ProducerVersionField) == Text(i.producerVersion)
    && Get(v, RunIdField) == Text(i.runId)
    && Get(v, AttemptIdField) == Text(i.attemptId)
    && Get(v, OperationIdField) == OptionalValue(i.operationId)
    && Get(v, AcquisitionSessionRefField) == OptionalValue(i.acquisitionSessionRef)
  }

  predicate WritesVerdict(v: Value, d: Verdict)
    requires v.Record?
  {
    && Get(v, ProviderOutcomeField) == Text(d.providerOutcome)
    && Get(v, CoverageStatusField) == Text(d.coverageStatus)
    && Get(v, SafeErrorCodeField) == OptionalValue(d.safeErrorCode)
  }

  predicate WritesLists(v: Value, l: Lists)
    requires v.Record?
  {
    && Get(v, ArtifactsField) == List(ListValue(l.artifacts, ArtifactValue))
    && Get(v, UnitsField) == List(ListValue(l.units, UnitValue))
    && Get(v, RangesField) == List(ListValue(l.ranges, RangeValue))
    && Get(v, ReportsField) == List(ListValue(l.reports, ReportValue))
    && Get(v, TransformationsField) == List(ListValue(l.transformations, TransformationValue))
  }

  predicate WritesRest(v: Value, m: TerminalManifest)
    requires v.Record?
  {
    && (forall f :: f in v.fields ==> IsManifestField(f))
    && Get(v, ManifestVersionField) == Text(TERMINAL_MANIFEST_VERSION)
    && Get(v, PersistenceCompleteField) == Bool(true)
    && Get(v, StartedAtField) == Text(m.window.startedAt)
    && Get(v, CompletedAtField) == Text(m.window.completedAt)
    && Get(v, RequestedScopeField) == ScopeValue(m.requestedScope)
  }

  /** `v` is a way to write `m`: under each name it says what `m` says, and it has no other name. */
  predicate Writes(v: Value, m: TerminalManifest) {
    v.Record? && WritesIdentity(v, m.identity) && WritesVerdict(v, m.verdict) && WritesLists(v, m.lists) && WritesRest(v, m)
  }

  lemma Carries(m: TerminalManifest, f: Field)
    requires IsManifestField(f)
    ensures Get(ManifestValue(m), f) == FieldValue(m, f)
  {
    EveryFieldIsNamed(f);
  }

  lemma NamedFieldsOnly(f: Field)
    requires f in MANIFEST_FIELDS
    ensures IsManifestField(f)
  {
    var i :| 0 <= i < 20 && MANIFEST_FIELDS[i] == f;
  }

  lemma EveryFieldIsNamed(f: Field)
    requires IsManifestField(f)
    ensures f in MANIFEST_FIELDS
  {
    match f
    case ManifestVersionField => assert MANIFEST_FIELDS[0] == f;
    case SourceField => assert MANIFEST_FIELDS[1] == f;
    case ProducerField => assert MANIFEST_FIELDS[2] == f;
    case ProducerVersionField => assert MANIFEST_FIELDS[3] == f;
    case RunIdField => assert MANIFEST_FIELDS[4] == f;
    case AttemptIdField => assert MANIFEST_FIELDS[5] == f;
    case OperationIdField => assert MANIFEST_FIELDS[6] == f;
    case AcquisitionSessionRefField => assert MANIFEST_FIELDS[7] == f;
    case RequestedScopeField => assert MANIFEST_FIELDS[8] == f;
    case StartedAtField => assert MANIFEST_FIELDS[9] == f;
    case CompletedAtField => assert MANIFEST_FIELDS[10] == f;
    case ProviderOutcomeField => assert MANIFEST_FIELDS[11] == f;
    case CoverageStatusField => assert MANIFEST_FIELDS[12] == f;
    case PersistenceCompleteField => assert MANIFEST_FIELDS[13] == f;
    case SafeErrorCodeField => assert MANIFEST_FIELDS[14] == f;
    case ArtifactsField => assert MANIFEST_FIELDS[15] == f;
    case UnitsField => assert MANIFEST_FIELDS[16] == f;
    case RangesField => assert MANIFEST_FIELDS[17] == f;
    case ReportsField => assert MANIFEST_FIELDS[18] == f;
    case TransformationsField => assert MANIFEST_FIELDS[19] == f;
  }

  lemma ManifestValueWritesLists(m: TerminalManifest)
    ensures WritesLists(ManifestValue(m), m.lists)
  {
    var v := ManifestValue(m);
    assert Get(v, ArtifactsField) == List(ListValue(m.lists.artifacts, ArtifactValue)) by {
      Carries(m, ArtifactsField);
    }
    assert Get(v, UnitsField) == List(ListValue(m.lists.units, UnitValue)) by {
      Carries(m, UnitsField);
    }
    assert Get(v, RangesField) == List(ListValue(m.lists.ranges, RangeValue)) by {
      Carries(m, RangesField);
    }
    assert Get(v, ReportsField) == List(ListValue(m.lists.reports, ReportValue)) by {
      Carries(m, ReportsField);
    }
    assert Get(v, TransformationsField) == List(ListValue(m.lists.transformations, TransformationValue)) by {
      Carries(m, TransformationsField);
    }
  }

  lemma ManifestValueWritesIdentity(m: TerminalManifest)
    ensures WritesIdentity(ManifestValue(m), m.identity)
  {
    Carries(m, SourceField);
    Carries(m, ProducerField);
    Carries(m, ProducerVersionField);
    Carries(m, RunIdField);
    Carries(m, AttemptIdField);
    Carries(m, OperationIdField);
    Carries(m, AcquisitionSessionRefField);
  }

  lemma ManifestValueWritesVerdict(m: TerminalManifest)
    ensures WritesVerdict(ManifestValue(m), m.verdict)
  {
    Carries(m, ProviderOutcomeField);
    Carries(m, CoverageStatusField);
    Carries(m, SafeErrorCodeField);
  }

  lemma ManifestValueWritesRest(m: TerminalManifest)
    ensures WritesRest(ManifestValue(m), m)
  {
    Carries(m, ManifestVersionField);
    Carries(m, PersistenceCompleteField);
    Carries(m, StartedAtField);
    Carries(m, CompletedAtField);
    Carries(m, RequestedScopeField);
    forall f | f in ManifestValue(m).fields ensures IsManifestField(f) {
      NamedFieldsOnly(f);
    }
  }

  lemma ManifestValueWrites(m: TerminalManifest)
    ensures Writes(ManifestValue(m), m)
  {
    ManifestValueWritesIdentity(m);
    ManifestValueWritesVerdict(m);
    ManifestValueWritesLists(m);
    ManifestValueWritesRest(m);
  }

  // ----- parsing what was parsed -----

  ghost predicate Rereads<T(!new)>(x: T, value: T -> Value, parse: Value -> Result<T, ManifestError>) {
    parse(value(x)) == Ok(x)
  }

  lemma {:induction false} ParseAllMeaning<T(!new)>(items: seq<Value>, parse: Value -> Result<T, ManifestError>)
    ensures ParseAll(items, parse).Ok? <==> forall v :: v in items ==> parse(v).Ok?
    ensures ParseAll(items, parse).Ok? ==>
              && |ParseAll(items, parse).value| == |items|
              && forall i :: 0 <= i < |items| ==> parse(items[i]) == Ok(ParseAll(items, parse).value[i])
  {
    if items != [] {
      ParseAllMeaning(items[1..], parse);
      assert items == [items[0]] + items[1..];
    }
  }

  lemma {:induction false} ParseAllRereads<T(!new)>(xs: seq<T>, value: T -> Value,
                                                     parse: Value -> Result<T, ManifestError>)
    requires forall x :: x in xs ==> Rereads(x, value, parse)
    ensures ParseAll(ListValue(xs, value), parse) == Ok(xs)
  {
    if xs != [] {
      assert Rereads(xs[0], value, parse);
      ParseAllRereads(xs[1..], value, parse);
      assert ListValue(xs, value)[1..] == ListValue(xs[1..], value);
      assert xs == [xs[0]] + xs[1..];
    }
  }

  /** Every list comes back from its own entries: they re-read, they are distinct, and they are in order. */
  lemma EntriesReread<T(!new)>(v: Value, max: nat, invalid: ManifestError, parse: Value -> Result<T, ManifestError>,
                               key: T -> string, duplicate: ManifestError, value: T -> Value)
    requires Entries(v, max, invalid, parse, key, duplicate).Ok?
    requires forall w, x :: parse(w) == Ok(x) ==> Rereads(x, value, parse)
    ensures var xs := Entries(v, max, invalid, parse, key, duplicate).value;
            Entries(List(ListValue(xs, value)), max, invalid, parse, key, duplicate) == Ok(xs)
  {
    var parsed := ParseAll(v.items, parse).value;
    var xs := SortBy(parsed, key);
    ParseAllMeaning(v.items, parse);
    forall x | x in xs ensures Rereads(x, value, parse) {
      assert x in multiset(parsed);
      var i :| 0 <= i < |parsed| && parsed[i] == x;
      assert parse(v.items[i]) == Ok(x);
    }
    ParseAllRereads(xs, value, parse);
    SortByIsIdempotent(parsed, key);
  }

  lemma StorageRefRereads(v: Value, e: ManifestError, ref: StorageRef)
    requires StorageRefOf(v, e) == Ok(ref)
    ensures StorageRefOf(StorageRefValue(ref), e) == Ok(ref)
  {
  }

  lemma ArtifactRereads(v: Value, a: Artifact)
    requires ParseArtifact(v) == Ok(a)
    ensures Rereads(a, ArtifactValue, ParseArtifact)
  {
    StorageRefRereads(Get(v, StorageRefField), InvalidArtifactStorageRef, a.storageRef);
  }

  lemma UnitRereads(v: Value, u: Unit)
    requires ParseUnit(v) == Ok(u)
    ensures Rereads(u, UnitValue, ParseUnit)
  {
  }

  lemma RangeRereads(v: Value, r: Range)
    requires ParseRange(v) == Ok(r)
    ensures Rereads(r, RangeValue, ParseRange)
  {
  }

  function OptionalRefValue(ref: Option<StorageRef>): Value {
    if ref.None? then Undefined else StorageRefValue(ref.value)
  }

  lemma ReportRefRereads(reportRef: string, v: Value, ref: Option<StorageRef>)
    requires OptionalReportRef(reportRef, v) == Ok(ref)
    ensures OptionalReportRef(reportRef, OptionalRefValue(ref)) == Ok(ref)
  {
    if ref.Some? {
      StorageRefRereads(v, InvalidReportStorageRef, ref.value);
    }
  }

  lemma ReportRereads(v: Value, r: Report)
    requires ParseReport(v) == Ok(r)
    ensures Rereads(r, ReportValue, ParseReport)
  {
    ReportRefRereads(r.reportRef, Get(v, StorageRefField), r.storageRef);
    assert Get(ReportValue(r), StorageRefField) == OptionalRefValue(r.storageRef);
  }

  lemma TransformationRereads(v: Value, t: Transformation)
    requires ParseTransformation(v) == Ok(t)
    ensures Rereads(t, TransformationValue, ParseTransformation)
  {
    var items := Get(v, InputArtifactKeysField).items;
    ParseAllMeaning(items, InputText);
    forall s | s in t.inputArtifactKeys ensures Rereads(s, TextValue, InputText) {
    }
    ParseAllRereads(t.inputArtifactKeys, TextValue, InputText);
  }

  lemma UnitKeysReread(given: Value, unitKeys: seq<string>)
    requires RequestedUnitKeys(given) == Ok(unitKeys)
    ensures RequestedUnitKeys(List(ListValue(unitKeys, TextValue))) == Ok(unitKeys)
  {
    var listed := if given.Undefined? || given.Null? then List([]) else given;
    EntriesReread(listed, MAX_UNITS, InvalidRequestedScope, UnitKeyText, (s: string) => s, DuplicateRequestedUnitKey,
                  TextValue);
  }

  lemma ScopeWithRereads(v: Value, s: RequestedScope)
    requires v.Record? && ScopeWith(v, s.unitKeys) == Ok(s)
    ensures ScopeWith(ScopeValue(s), s.unitKeys) == Ok(s)
  {
  }

  lemma ScopeUnitKeysReread(v: Value, s: RequestedScope)
    requires v.Record? && RequestedUnitKeys(Get(v, UnitKeysField)) == Ok(s.unitKeys)
    ensures RequestedUnitKeys(Get(ScopeValue(s), UnitKeysField)) == Ok(s.unitKeys)
  {
    UnitKeysReread(Get(v, UnitKeysField), s.unitKeys);
  }

  lemma ScopeRereads(v: Value, s: RequestedScope)
    requires ParseRequestedScope(v) == Ok(s)
    ensures ParseRequestedScope(ScopeValue(s)) == Ok(s)
  {
    ScopeUnitKeysReread(v, s);
    ScopeWithRereads(v, s);
  }

  lemma ArtifactsReread(v: Value)
    requires ArtifactsOf(v).Ok?
    ensures ArtifactsOf(List(ListValue(ArtifactsOf(v).value, ArtifactValue))) == ArtifactsOf(v)
  {
    forall w, x | ParseArtifact(w) == Ok(x) ensures Rereads(x, ArtifactValue, ParseArtifact) {
      ArtifactRereads(w, x);
    }
    EntriesReread(v, MAX_ARTIFACTS, InvalidArtifacts, ParseArtifact, ArtifactKeyOf,
                  DuplicateArtifactKey, ArtifactValue);
  }

  lemma UnitsReread(v: Value)
    requires UnitsOf(v).Ok?
    ensures UnitsOf(List(ListValue(UnitsOf(v).value, UnitValue))) == UnitsOf(v)
  {
    forall w, x | ParseUnit(w) == Ok(x) ensures Rereads(x, UnitValue, ParseUnit) {
      UnitRereads(w, x);
    }
    EntriesReread(v, MAX_UNITS, InvalidUnits, ParseUnit, UnitKeyOf, DuplicateUnitKey, UnitValue);
  }

  lemma RangesReread(v: Value)
    requires RangesOf(v).Ok?
    ensures RangesOf(List(ListValue(RangesOf(v).value, RangeValue))) == RangesOf(v)
  {
    forall w, x | ParseRange(w) == Ok(x) ensures Rereads(x, RangeValue, ParseRange) {
      RangeRereads(w, x);
    }
    EntriesReread(v, MAX_RANGES, InvalidRanges, ParseRange, RangeKeyOf, DuplicateRangeKey, RangeValue);
  }

  lemma ReportsReread(v: Value)
    requires ReportsOf(v).Ok?
    ensures ReportsOf(List(ListValue(ReportsOf(v).value, ReportValue))) == ReportsOf(v)
  {
    forall w, x | ParseReport(w) == Ok(x) ensures Rereads(x, ReportValue, ParseReport) {
      ReportRereads(w, x);
    }
    EntriesReread(v, MAX_REPORTS, InvalidReports, ParseReport, ReportRefOf, DuplicateReportRef,
                  ReportValue);
  }

  lemma TransformationsReread(v: Value)
    requires TransformationsOf(v).Ok?
    ensures TransformationsOf(List(ListValue(TransformationsOf(v).value, TransformationValue))) == TransformationsOf(v)
  {
    forall w, x | ParseTransformation(w) == Ok(x) ensures Rereads(x, TransformationValue, ParseTransformation) {
      TransformationRereads(w, x);
    }
    EntriesReread(v, MAX_TRANSFORMATIONS, InvalidTransformations, ParseTransformation,
                  TransformationIdOf, DuplicateTransformationId, TransformationValue);
  }

  lemma CheckedListsKeeps(artifacts: Result<seq<Artifact>, ManifestError>, units: Result<seq<Unit>, ManifestError>,
                          ranges: Result<seq<Range>, ManifestError>, reports: Result<seq<Report>, ManifestError>,
                          transformations: Result<seq<Transformation>, ManifestError>, l: Lists)
    requires CheckedLists(artifacts, units, ranges, reports, transformations) == Ok(l)
    ensures artifacts == Ok(l.artifacts) && units == Ok(l.units) && ranges == Ok(l.ranges)
    ensures reports == Ok(l.reports) && transformations == Ok(l.transformations)
  {
  }

  lemma ListParts(body: Value, l: Lists)
    requires body.Record? && ListsOf(body) == Ok(l)
    ensures ArtifactsOf(Get(body, ArtifactsField)) == Ok(l.artifacts)
    ensures UnitsOf(Get(body, UnitsField)) == Ok(l.units)
    ensures RangesOf(Get(body, RangesField)) == Ok(l.ranges)
    ensures ReportsOf(Get(body, ReportsField)) == Ok(l.reports)
    ensures TransformationsOf(Get(body, TransformationsField)) == Ok(l.transformations)
  {
    CheckedListsKeeps(ArtifactsOf(Get(body, ArtifactsField)), UnitsOf(Get(body, UnitsField)),
                      RangesOf(Get(body, RangesField)), ReportsOf(Get(body, ReportsField)),
                      TransformationsOf(Get(body, TransformationsField)), l);
  }

  lemma ListsReread(body: Value, again: Value, l: Lists)
    requires body.Record? && again.Record? && ListsOf(body) == Ok(l)
    requires WritesLists(again, l)
    ensures ListsOf(again) == Ok(l)
  {
    ListParts(body, l);
    ArtifactsReread(Get(body, ArtifactsField));
    UnitsReread(Get(body, UnitsField));
    RangesReread(Get(body, RangesField));
    ReportsReread(Get(body, ReportsField));
    TransformationsReread(Get(body, TransformationsField));
  }

  lemma VerdictRereads(body: Value, again: Value, d: Verdict)
    requires body.Record? && again.Record? && VerdictOf(body) == Ok(d)
    requires WritesVerdict(again, d)
    ensures VerdictOf(again) == Ok(d)
  {
  }

  lemma IdentityRereads(body: Value, again: Value, i: Identity)
    requires body.Record? && again.Record? && IdentityOf(body) == Ok(i)
    requires WritesIdentity(again, i)
    ensures IdentityOf(again) == Ok(i)
  {
  }

  lemma PreambleAgain(again: Value, m: TerminalManifest)
    requires again.Record? && WritesRest(again, m)
    ensures PreambleProblem(again) == None
  {
  }

  lemma WindowRereads(dates: Dates, body: Value, again: Value, m: TerminalManifest)
    requires body.Record? && again.Record? && WindowOf(dates, body) == Ok(m.window)
    requires WritesRest(again, m)
    ensures WindowOf(dates, again) == Ok(m.window)
  {
  }

  lemma ScopeAgain(v: Value, again: Value, m: TerminalManifest)
    requires ParseRequestedScope(v) == Ok(m.requestedScope)
    requires again.Record? && WritesRest(again, m)
    ensures ParseRequestedScope(Get(again, RequestedScopeField)) == Ok(m.requestedScope)
  {
    ScopeRereads(v, m.requestedScope);
  }

  lemma AssembledKeeps(window: Result<Window, ManifestError>, lists: Result<Lists, ManifestError>,
                       verdict: Result<Verdict, ManifestError>, identity: Result<Identity, ManifestError>,
                       scope: Result<RequestedScope, ManifestError>, m: TerminalManifest)
    requires Assembled(window, lists, verdict, identity, scope) == Ok(m)
    ensures window == Ok(m.window) && lists == Ok(m.lists) && verdict == Ok(m.verdict)
    ensures identity == Ok(m.identity) && scope == Ok(m.requestedScope)
  {
  }

  lemma ParsedParts(dates: Dates, input: Value, m: TerminalManifest)
    requires Parsed(dates, input) == Ok(m)
    ensures input.Record? && PreambleProblem(input) == None
    ensures WindowOf(dates, input) == Ok(m.window)
    ensures ListsOf(input) == Ok(m.lists)
    ensures VerdictOf(input) == Ok(m.verdict)
    ensures IdentityOf(input) == Ok(m.identity)
    ensures ParseRequestedScope(Get(input, RequestedScopeField)) == Ok(m.requestedScope)
  {
    AssembledKeeps(WindowOf(dates, input), ListsOf(input), VerdictOf(input), IdentityOf(input),
                   ParseRequestedScope(Get(input, RequestedScopeField)), m);
  }

  lemma PartsParsed(dates: Dates, input: Value, m: TerminalManifest)
    requires PreambleProblem(input) == None
    requires WindowOf(dates, input) == Ok(m.window)
    requires ListsOf(input) == Ok(m.lists)
    requires VerdictOf(input) == Ok(m.verdict)
    requires IdentityOf(input) == Ok(m.identity)
    requires ParseRequestedScope(Get(input, RequestedScopeField)) == Ok(m.requestedScope)
    ensures Parsed(dates, input) == Ok(m)
  {
  }

  /** The parser is idempotent: its own output, written back and handed in again, parses to itself. */
  lemma ParsedIsNormal(dates: Dates, input: Value, m: TerminalManifest, again: Value)
    requires Parsed(dates, input) == Ok(m)
    requires Writes(again, m)
    ensures Parsed(dates, again) == Ok(m)
  {
    ParsedParts(dates, input, m);
    PreambleAgain(again, m);
    WindowRereads(dates, input, again, m);
    ListsReread(input, again, m.lists);
    VerdictRereads(input, again, m.verdict);
    IdentityRereads(input, again, m.identity);
    ScopeAgain(Get(input, RequestedScopeField), again, m);
    PartsParsed(dates, again, m);
  }

  // ----- what an accepted manifest guarantees -----

  /** An artifact is stored under the key of its own digest. */
  predicate Addressed(a: Artifact) {
    ObjectKey(a.sha256) == Ok(a.storageRef.key)
  }

  lemma ArtifactIsAddressed(v: Value, a: Artifact)
    requires ParseArtifact(v) == Ok(a)
    ensures Addressed(a)
  {
  }

  /** Artifacts come back each under its own digest's key, one per artifact key, in ascending order. */
  lemma ArtifactsAreAddressed(v: Value, artifacts: seq<Artifact>)
    requires ArtifactsOf(v) == Ok(artifacts)
    ensures forall i :: 0 <= i < |artifacts| ==> Addressed(artifacts[i])
    ensures Ascending(artifacts, ArtifactKeyOf)
  {
    var parsed := ParseAll(v.items, ParseArtifact).value;
    ParseAllMeaning(v.items, ParseArtifact);
    SortByAscends(parsed, ArtifactKeyOf);
    forall i | 0 <= i < |artifacts| ensures Addressed(artifacts[i]) {
      assert artifacts[i] in multiset(parsed);
      var j :| 0 <= j < |parsed| && parsed[j] == artifacts[i];
      ArtifactIsAddressed(v.items[j], artifacts[i]);
    }
  }

  lemma IdentityIsValid(body: Value, i: Identity)
    requires body.Record? && IdentityOf(body) == Ok(i)
    ensures SourceId(i.source) && RunId(i.runId)
  {
  }

  lemma VerdictIsHonest(body: Value, d: Verdict)
    requires body.Record? && VerdictOf(body) == Ok(d)
    ensures d.providerOutcome == "success" <==> d.safeErrorCode.None?
    ensures d.coverageStatus == "complete" ==> d.providerOutcome == "success"
  {
  }

  /** No accepted run that fell short reads as a success or as complete coverage. */
  lemma PartialNeverReadsAsSuccess(dates: Dates, input: Value, m: TerminalManifest)
    requires Parsed(dates, input) == Ok(m)
    ensures m.verdict.providerOutcome == "success" <==> m.verdict.safeErrorCode.None?
    ensures m.verdict.coverageStatus == "complete" ==> m.verdict.providerOutcome == "success"
  {
    ParsedParts(dates, input, m);
    VerdictIsHonest(input, m.verdict);
  }

  // ----- the order things are listed in -----

  predicate IsListField(f: Field) {
    f.ArtifactsField? || f.UnitsField? || f.RangesField? || f.ReportsField? || f.TransformationsField?
  }

  ghost predicate SameItems(a: Value, b: Value) {
    a == b || (a.List? && b.List? && multiset(a.items) == multiset(b.items))
  }

  /** The scopes differ at most in the order of the requested unit keys. */
  ghost predicate ScopeReordered(a: Value, b: Value) {
    || a == b
    || (&& a.Record? && b.Record? && a.fields.Keys == b.fields.Keys
        && SameItems(Get(a, UnitKeysField), Get(b, UnitKeysField))
        && forall f :: f in a.fields && f != UnitKeysField ==> a.fields[f] == b.fields[f])
  }

  ghost predicate ReorderedAt(v: Value, w: Value, f: Field)
    requires v.Record? && w.Record?
  {
    if IsListField(f) then SameItems(Get(v, f), Get(w, f))
    else if f == RequestedScopeField then ScopeReordered(Get(v, f), Get(w, f))
    else Get(v, f) == Get(w, f)
  }

  /** `w` states the run `v` states, its five lists and its requested unit keys in any order. */
  ghost predicate Reordered(v: Value, w: Value) {
    v.Record? && w.Record? && v.fields.Keys == w.fields.Keys && forall f :: ReorderedAt(v, w, f)
  }

  /** Both succeed with one value, or both fail. */
  ghost predicate Agree<T>(a: Result<T, ManifestError>, b: Result<T, ManifestError>) {
    a == b || (a.Err? && b.Err?)
  }

  lemma ParseAllReordered<T(!new)>(xs: seq<Value>, ys: seq<Value>, parse: Value -> Result<T, ManifestError>)
    requires multiset(xs) == multiset(ys)
    ensures |xs| == |ys|
    ensures ParseAll(xs, parse).Ok? <==> ParseAll(ys, parse).Ok?
    ensures ParseAll(xs, parse).Ok? ==>
              multiset(ParseAll(xs, parse).value) == multiset(ParseAll(ys, parse).value)
  {
    assert |multiset(xs)| == |multiset(ys)|;
    ParseAllMeaning(xs, parse);
    ParseAllMeaning(ys, parse);
    assert forall v :: v in xs <==> v in multiset(xs);
    assert forall v :: v in ys <==> v in multiset(ys);
    if ParseAll(xs, parse).Ok? {
      ImageReordered(xs, ys, parse);
    }
  }

  lemma ImageHead<T(!new)>(xs: seq<Value>, parse: Value -> Result<T, ManifestError>)
    requires xs != [] && ParseAll(xs, parse).Ok?
    ensures parse(xs[0]).Ok? && ParseAll(xs[1..], parse).Ok?
    ensures multiset(ParseAll(xs, parse).value) == multiset(ParseAll(xs[1..], parse).value) + multiset{parse(xs[0]).value}
  {
  }

  lemma {:induction false} ImageWithout<T(!new)>(front: seq<Value>, v: Value, back: seq<Value>,
                                                 parse: Value -> Result<T, ManifestError>)
    requires ParseAll(front + [v] + back, parse).Ok?
    ensures parse(v).Ok? && ParseAll(front + back, parse).Ok?
    ensures multiset(ParseAll(front + [v] + back, parse).value) ==
            multiset(ParseAll(front + back, parse).value) + multiset{parse(v).value}
  {
    ImageHead(front + [v] + back, parse);
    if front == [] {
      assert ([] + [v] + back)[1..] == back == [] + back;
    } else {
      assert (front + [v] + back)[1..] == front[1..] + [v] + back;
      assert (front + back)[1..] == front[1..] + back;
      ImageWithout(front[1..], v, back, parse);
      ImageHead(front + back, parse);
    }
  }

  lemma Remove(ys: seq<Value>, v: Value) returns (front: seq<Value>, back: seq<Value>)
    requires v in multiset(ys)
    ensures ys == front + [v] + back
    ensures multiset(front + back) == multiset(ys) - multiset{v}
  {
    var i :| 0 <= i < |ys| && ys[i] == v;
    front, back := ys[..i], ys[i + 1..];
    assert ys == front + [v] + back;
  }

  lemma {:induction false} ImageReordered<T(!new)>(xs: seq<Value>, ys: seq<Value>,
                                                    parse: Value -> Result<T, ManifestError>)
    requires multiset(xs) == multiset(ys)
    requires ParseAll(xs, parse).Ok? && ParseAll(ys, parse).Ok?
    ensures multiset(ParseAll(xs, parse).value) == multiset(ParseAll(ys, parse).value)
  {
    if xs == [] {
      assert |multiset(ys)| == 0;
    } else {
      var front, back := Remove(ys, xs[0]);
      assert xs == [xs[0]] + xs[1..];
      assert multiset(xs[1..]) == multiset(xs) - multiset{xs[0]};
      ImageHead(xs, parse);
      ImageWithout(front, xs[0], back, parse);
      ImageReordered(xs[1..], front + back, parse);
    }
  }

  lemma EntriesReordered<T(!new)>(v: Value, w: Value, max: nat, invalid: ManifestError,
                                  parse: Value -> Result<T, ManifestError>, key: T -> string, duplicate: ManifestError)
    requires SameItems(v, w)
    ensures Agree(Entries(v, max, invalid, parse, key, duplicate), Entries(w, max, invalid, parse, key, duplicate))
  {
    if v != w {
      ParseAllReordered(v.items, w.items, parse);
      var xs, ys := ParseAll(v.items, parse), ParseAll(w.items, parse);
      if xs.Ok? {
        SameKeys(xs.value, ys.value, key);
        if DistinctKeys(xs.value, key) {
          SortByIsCanonical(xs.value, ys.value, key);
        }
      }
    }
  }

  /** Lists that agree one by one agree together. */
  lemma CheckedListsAgree(a1: Result<seq<Artifact>, ManifestError>, u1: Result<seq<Unit>, ManifestError>,
                          r1: Result<seq<Range>, ManifestError>, p1: Result<seq<Report>, ManifestError>,
                          t1: Result<seq<Transformation>, ManifestError>,
                          a2: Result<seq<Artifact>, ManifestError>, u2: Result<seq<Unit>, ManifestError>,
                          r2: Result<seq<Range>, ManifestError>, p2: Result<seq<Report>, ManifestError>,
                          t2: Result<seq<Transformation>, ManifestError>)
    requires Agree(a1, a2) && Agree(u1, u2) && Agree(r1, r2) && Agree(p1, p2) && Agree(t1, t2)
    ensures Agree(CheckedLists(a1, u1, r1, p1, t1), CheckedLists(a2, u2, r2, p2, t2))
  {
  }

  lemma ListsReordered(v: Value, w: Value)
    requires Reordered(v, w)
    ensures Agree(ListsOf(v), ListsOf(w))
  {
    assert ReorderedAt(v, w, ArtifactsField) && ReorderedAt(v, w, UnitsField) && ReorderedAt(v, w, RangesField);
    assert ReorderedAt(v, w, ReportsField) && ReorderedAt(v, w, TransformationsField);
    EntriesReordered(Get(v, ArtifactsField), Get(w, ArtifactsField), MAX_ARTIFACTS, InvalidArtifacts, ParseArtifact,
                     ArtifactKeyOf, DuplicateArtifactKey);
    EntriesReordered(Get(v, UnitsField), Get(w, UnitsField), MAX_UNITS, InvalidUnits, ParseUnit,
                     UnitKeyOf, DuplicateUnitKey);
    EntriesReordered(Get(v, RangesField), Get(w, RangesField), MAX_RANGES, InvalidRanges, ParseRange,
                     RangeKeyOf, DuplicateRangeKey);
    EntriesReordered(Get(v, ReportsField), Get(w, ReportsField), MAX_REPORTS, InvalidReports, ParseReport,
                     ReportRefOf, DuplicateReportRef);
    EntriesReordered(Get(v, TransformationsField), Get(w, TransformationsField), MAX_TRANSFORMATIONS,
                     InvalidTransformations, ParseTransformation,
                     TransformationIdOf, DuplicateTransformationId);
    CheckedListsAgree(ArtifactsOf(Get(v, ArtifactsField)), UnitsOf(Get(v, UnitsField)), RangesOf(Get(v, RangesField)),
                      ReportsOf(Get(v, ReportsField)), TransformationsOf(Get(v, TransformationsField)),
                      ArtifactsOf(Get(w, ArtifactsField)), UnitsOf(Get(w, UnitsField)), RangesOf(Get(w, RangesField)),
                      ReportsOf(Get(w, ReportsField)), TransformationsOf(Get(w, TransformationsField)));
  }

  lemma UnitKeysReordered(x: Value, y: Value)
    requires SameItems(x, y)
    ensures Agree(RequestedUnitKeys(x), RequestedUnitKeys(y))
  {
    if x != y {
      EntriesReordered(x, y, MAX_UNITS, InvalidRequestedScope, UnitKeyText, (s: string) => s, DuplicateRequestedUnitKey);
    }
  }

  lemma ScopeWithReads(a: Value, b: Value, unitKeys: seq<string>)
    requires a.Record? && b.Record? && a.fields.Keys == b.fields.Keys
    requires forall f :: f in a.fields && f != UnitKeysField ==> a.fields[f] == b.fields[f]
    ensures ScopeWith(a, unitKeys) == ScopeWith(b, unitKeys)
  {
    assert Get(a, ScopeKindField) == Get(b, ScopeKindField);
    assert Get(a, StartValueField) == Get(b, StartValueField);
    assert Get(a, EndValueField) == Get(b, EndValueField);
  }

  lemma ScopeReads(a: Value, b: Value)
    requires ScopeReordered(a, b)
    ensures Agree(ParseRequestedScope(a), ParseRequestedScope(b))
  {
    if a != b {
      UnitKeysReordered(Get(a, UnitKeysField), Get(b, UnitKeysField));
      var unitKeys := RequestedUnitKeys(Get(a, UnitKeysField));
      if unitKeys.Ok? {
        ScopeWithReads(a, b, unitKeys.value);
      }
    }
  }

  lemma AssembledAgrees(w1: Result<Window, ManifestError>, l1: Result<Lists, ManifestError>,
                        l2: Result<Lists, ManifestError>, v1: Result<Verdict, ManifestError>,
                        i1: Result<Identity, ManifestError>, s1: Result<RequestedScope, ManifestError>,
                        s2: Result<RequestedScope, ManifestError>)
    requires Agree(l1, l2) && Agree(s1, s2)
    ensures Agree(Assembled(w1, l1, v1, i1, s1), Assembled(w1, l2, v1, i1, s2))
  {
  }

  lemma SamePreamble(v: Value, w: Value)
    requires Reordered(v, w)
    ensures PreambleProblem(v) == PreambleProblem(w)
  {
    SameAt(v, w, ManifestVersionField);
    SameAt(v, w, PersistenceCompleteField);
  }

  lemma ScopeAgrees(v: Value, w: Value)
    requires Reordered(v, w)
    ensures Agree(ParseRequestedScope(Get(v, RequestedScopeField)), ParseRequestedScope(Get(w, RequestedScopeField)))
  {
    assert ReorderedAt(v, w, RequestedScopeField);
    ScopeReads(Get(v, RequestedScopeField), Get(w, RequestedScopeField));
  }

  lemma SameAt(v: Value, w: Value, f: Field)
    requires Reordered(v, w) && !IsListField(f) && f != RequestedScopeField
    ensures Get(v, f) == Get(w, f)
  {
    assert ReorderedAt(v, w, f);
  }

  lemma SameWindow(dates: Dates, v: Value, w: Value)
    requires Reordered(v, w)
    ensures WindowOf(dates, v) == WindowOf(dates, w)
  {
    SameAt(v, w, StartedAtField);
    SameAt(v, w, CompletedAtField);
  }

  lemma SameVerdict(v: Value, w: Value)
    requires Reordered(v, w)
    ensures VerdictOf(v) == VerdictOf(w)
  {
    SameAt(v, w, ProviderOutcomeField);
    SameAt(v, w, CoverageStatusField);
    SameAt(v, w, SafeErrorCodeField);
  }

  lemma SameIdentity(v: Value, w: Value)
    requires Reordered(v, w)
    ensures IdentityOf(v) == IdentityOf(w)
  {
    SameAt(v, w, OperationIdField);
    SameAt(v, w, AcquisitionSessionRefField);
    SameAt(v, w, SourceField);
    SameAt(v, w, ProducerField);
    SameAt(v, w, ProducerVersionField);
    SameAt(v, w, RunIdField);
    SameAt(v, w, AttemptIdField);
  }

  /**
    The order in which artifacts, units, ranges, reports, transformations and requested unit keys are
    listed never decides whether a run is accepted, nor what its manifest, and so its digest, is.
  */
  lemma OrderIsForgotten(dates: Dates, v: Value, w: Value)
    requires Reordered(v, w)
    ensures Agree(Parsed(dates, v), Parsed(dates, w))
  {
    SamePreamble(v, w);
    SameWindow(dates, v, w);
    ListsReordered(v, w);
    SameVerdict(v, w);
    SameIdentity(v, w);
    ScopeAgrees(v, w);
    AssembledAgrees(WindowOf(dates, v), ListsOf(v), ListsOf(w), VerdictOf(v), IdentityOf(v),
                    ParseRequestedScope(Get(v, RequestedScopeField)), ParseRequestedScope(Get(w, RequestedScopeField)));
  }
}
