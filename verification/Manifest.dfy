/**
  `terminal-v1`: the strict parse of a run's terminal manifest into its one normal form.
*/
module Manifest {
  import opened Wrappers
  import opened Keys
  import opened Sorting
  import opened Texts

  // ----- what the parser is handed -----

  /** The property names a manifest may carry, and any other. */
  datatype Field =
    | ManifestVersionField | SourceField | ProducerField | ProducerVersionField | RunIdField | AttemptIdField
    | OperationIdField | AcquisitionSessionRefField | RequestedScopeField | StartedAtField | CompletedAtField
    | ProviderOutcomeField | CoverageStatusField | PersistenceCompleteField | SafeErrorCodeField
    | ArtifactsField | UnitsField | RangesField | ReportsField | TransformationsField
    | ScopeKindField | StartValueField | EndValueField | UnitKeysField
    | StoreField | KeyField | ArtifactKeyField | StorageRefField | Sha256Field | ByteSizeField | MediaTypeField
    | RoleField | UnitKeyField | UnitKindField | ArtifactCountField
    | RangeKeyField | RangeKindField | PrecisionField | BasisField
    | ReportRefField | ReportKindField | ScopeField | OutcomeField
    | TransformationIdField | StepKindField | TransformerIdField | TransformerVersionField
    | InputArtifactKeysField | OutputArtifactKeyField
    | OtherField(name: string)

  /** A value of unknown shape: what `JSON.parse` or a caller may hand over. */
  datatype Value =
    | Undefined
    | Null
    | Bool(b: bool)
    | Number(n: int)
    | Fraction
    | Text(text: string)
    | List(items: seq<Value>)
    | Record(fields: map<Field, Value>)

  function Get(v: Value, f: Field): Value
    requires v.Record?
  {
    if f in v.fields then v.fields[f] else Undefined
  }

  /** The platform's date arithmetic, which the parser only asks for agreement. */
  datatype Dates = Dates(parse: string -> Option<int>, iso: int -> string)

  // ----- what it makes of it -----

  datatype StorageRef = StorageRef(store: string, key: string)

  datatype Artifact = Artifact(artifactKey: string, storageRef: StorageRef, sha256: string, byteSize: nat,
                               mediaType: string, role: string, unitKey: Option<string>)

  datatype Unit = Unit(unitKey: string, unitKind: string, artifactCount: nat, coverageStatus: string,
                       safeErrorCode: Option<string>)

  datatype Range = Range(rangeKey: string, rangeKind: string, precision: string, basis: string,
                         startValue: Option<string>, endValue: Option<string>, unitKey: Option<string>)

  datatype Report = Report(reportRef: string, reportKind: string, scope: string, outcome: string,
                           unitKey: Option<string>, storageRef: Option<StorageRef>, safeErrorCode: Option<string>)

  datatype Transformation = Transformation(transformationId: string, stepKind: string, transformerId: string,
                                           transformerVersion: string, inputArtifactKeys: seq<string>,
                                           outputArtifactKey: string)

  datatype RequestedScope = RequestedScope(scopeKind: string, startValue: Option<string>, endValue: Option<string>,
                                           unitKeys: seq<string>)

  datatype Lists = Lists(artifacts: seq<Artifact>, units: seq<Unit>, ranges: seq<Range>, reports: seq<Report>,
                         transformations: seq<Transformation>)

  datatype Verdict = Verdict(providerOutcome: string, coverageStatus: string, safeErrorCode: Option<string>)

  datatype Identity = Identity(operationId: Option<string>, acquisitionSessionRef: Option<string>, source: string,
                               producer: string, producerVersion: string, runId: string, attemptId: string)

  datatype Window = Window(startedAt: string, completedAt: string)

  /** The record, its properties grouped as they are checked; version and persistence claim are constants. */
  datatype TerminalManifest = TerminalManifest(identity: Identity, requestedScope: RequestedScope, window: Window,
                                               verdict: Verdict, lists: Lists)

  datatype ManifestError =
    | KeyProblem(key: KeyError)
    | InvalidManifest | UnknownField | InvalidManifestVersion | InvalidPersistenceComplete
    | InvalidStartedAt | InvalidCompletedAt | ReversedRunWindow
    | InvalidArtifacts | InvalidArtifact | InvalidArtifactStorageRef | ArtifactStorageRefMismatch
    | InvalidArtifactUnitKey | InvalidArtifactKey | InvalidArtifactByteSize | InvalidArtifactMediaType
    | InvalidArtifactRole | DuplicateArtifactKey | ArtifactUnitKeyUnknown
    | InvalidUnits | InvalidUnit | InvalidUnitSafeErrorCode | InvalidUnitKey | InvalidUnitKind
    | InvalidUnitArtifactCount | InvalidUnitCoverageStatus | DuplicateUnitKey
    | InvalidRanges | InvalidRange | InvalidRangeStartValue | InvalidRangeEndValue | EmptyRange | ReversedRange
    | InvalidRangeUnitKey | InvalidRangeKey | InvalidRangeKind | InvalidRangePrecision | InvalidRangeBasis
    | DuplicateRangeKey | RangeUnitKeyUnknown
    | InvalidReports | InvalidReport | InvalidReportUnitKey | InvalidReportSafeErrorCode | InvalidReportScope
    | ReportUnitKeyRequired | BadReportRef | InvalidReportStorageRef | ReportStorageRefMismatch
    | InvalidReportKind | InvalidReportOutcome | DuplicateReportRef | ReportUnitKeyUnknown
    | InvalidTransformations | InvalidTransformation | InvalidTransformationInputs | DuplicateTransformationInput
    | InvalidTransformationId | InvalidTransformationStepKind | InvalidTransformerId | InvalidTransformerVersion
    | InvalidTransformationOutput | DuplicateTransformationId | TransformationOutputUnknown
    | TransformationSelfReference
    | InvalidProviderOutcome | InvalidCoverageStatus | InvalidSafeErrorCode | IncompleteRunClaimsCompleteCoverage
    | SafeErrorCodeRequired | SafeErrorCodeOnSuccess
    | InvalidOperationId | InvalidAcquisitionSessionRef | InvalidProducer | InvalidProducerVersion
    | InvalidAttemptId | InvalidRequestedScope | DuplicateRequestedUnitKey | InvalidScopeKind

  const TERMINAL_MANIFEST_VERSION := "terminal-v1"
  const MAX_ARTIFACTS := 10_000
  const MAX_UNITS := 1_000
  const MAX_RANGES := 1_000
  const MAX_REPORTS := 1_000
  const MAX_TRANSFORMATIONS := 1_000
  const MAX_SAFE_INTEGER := 9_007_199_254_740_991

  predicate IsManifestField(f: Field) {
    match f
    case ManifestVersionField | SourceField | ProducerField | ProducerVersionField | RunIdField => true
    case AttemptIdField | OperationIdField | AcquisitionSessionRefField | RequestedScopeField => true
    case StartedAtField | CompletedAtField | ProviderOutcomeField | CoverageStatusField => true
    case PersistenceCompleteField | SafeErrorCodeField => true
    case ArtifactsField | UnitsField | RangesField | ReportsField | TransformationsField => true
    case _ => false
  }

  // ----- patterns -----

  predicate IsProviderOutcome(s: string) {
    s == "success" || s == "partial" || s == "failed"
  }

  predicate IsCoverageStatus(s: string) {
    s == "complete" || s == "partial" || s == "unknown"
  }

  predicate IsScopeKind(s: string) {
    s == "full_snapshot" || s == "date_range" || s == "month_range" || s == "unspecified"
  }

  predicate IsStore(s: string) {
    s == "DATA"
  }

  predicate IsRangeKind(s: string) {
    s == "requested" || s == "declared_coverage" || s == "selector"
  }

  predicate IsRangeBasis(s: string) {
    s == "source" || s == "request" || s == "manifest" || s == "operator"
  }

  predicate IsRangePrecision(s: string) {
    s == "instant" || s == "date" || s == "month"
  }

  predicate IsReportScope(s: string) {
    s == "run" || s == "unit"
  }

  predicate IsStepKind(s: string) {
    || s == "transport_decoded" || s == "decrypted" || s == "redacted" || s == "reencoded"
    || s == "bundled" || s == "rendered" || s == "extracted" || s == "generated"
  }

  predicate IsSafeCode(s: string) {
    1 <= |s| <= 100 && IsLowerAlnum(s[0]) && forall i :: 0 <= i < |s| ==> IsLowerAlnum(s[i]) || s[i] == '_' || s[i] == '-'
  }

  predicate IsIdent(s: string) {
    1 <= |s| <= 200 && IsAlnum(s[0]) && forall i :: 0 <= i < |s| ==> NameChar(s[i]) || s[i] == ':'
  }

  predicate IsArtifactKey(s: string) {
    1 <= |s| <= 300 && IsAlnum(s[0]) && forall i :: 0 <= i < |s| ==> NameChar(s[i]) || s[i] == '/'
  }

  predicate IsMediaToken(s: string) {
    && 1 <= |s| <= 127
    && IsLowerAlnum(s[0])
    && forall i :: 0 <= i < |s| ==> IsLowerAlnum(s[i]) || s[i] in "!#$&^_.+-"
  }

  predicate IsMediaType(s: string) {
    |Split(s, '/')| == 2 && IsMediaToken(Split(s, '/')[0]) && IsMediaToken(Split(s, '/')[1])
  }

  predicate IsStorageKey(s: string) {
    1 <= |s| <= 1024
  }

  predicate IsNullable(s: string) {
    1 <= |s| <= 64
  }

  /** `d` stands for a digit, everything else for itself. */
  predicate Shaped(template: string, s: string) {
    |s| == |template| && forall i :: 0 <= i < |s| ==> if template[i] == 'd' then IsDigit(s[i]) else s[i] == template[i]
  }

  predicate IsInstantShape(s: string) {
    Shaped("dddd-dd-ddTdd:dd:ddZ", s) || Shaped("dddd-dd-ddTdd:dd:dd.dddZ", s)
  }

  // ----- single values -----

  function TextOf(v: Value, pattern: string -> bool, e: ManifestError): Result<string, ManifestError> {
    if v.Text? && pattern(v.text) then Ok(v.text) else Err(e)
  }

  function OptionalText(v: Value, pattern: string -> bool, e: ManifestError): Result<Option<string>, ManifestError> {
    if v.Undefined? then Ok(None)
    else
      var text :- TextOf(v, pattern, e);
      Ok(Some(text))
  }

  function NullableValue(v: Value, e: ManifestError): Result<Option<string>, ManifestError> {
    if v.Null? then Ok(None) else OptionalText(v, IsNullable, e)
  }

  function CountOf(v: Value, e: ManifestError): Result<nat, ManifestError> {
    if v.Number? && 0 <= v.n <= MAX_SAFE_INTEGER then Ok(v.n) else Err(e)
  }

  function ListOf(v: Value, max: nat, e: ManifestError): Result<seq<Value>, ManifestError> {
    if v.List? && |v.items| <= max then Ok(v.items) else Err(e)
  }

  function RecordOf(v: Value, allowed: set<Field>, e: ManifestError): Result<Value, ManifestError> {
    if v.Record? && v.fields.Keys <= allowed then Ok(v) else Err(e)
  }

  function InstantOf(dates: Dates, v: Value, e: ManifestError): Result<string, ManifestError> {
    if !v.Text? || !IsInstantShape(v.text) then Err(e)
    else
      var s := v.text;
      var normalized := if |s| == 20 then s[..19] + ".000Z" else s;
      match dates.parse(s)
      case None => Err(e)
      case Some(ms) => if dates.iso(ms) != normalized then Err(e) else Ok(s)
  }

  // ----- lists -----

  function ParseAll<T>(items: seq<Value>, parse: Value -> Result<T, ManifestError>): Result<seq<T>, ManifestError> {
    if items == [] then Ok([])
    else
      var first :- parse(items[0]);
      var rest :- ParseAll(items[1..], parse);
      Ok([first] + rest)
  }

  function Entries<T>(v: Value, max: nat, invalid: ManifestError, parse: Value -> Result<T, ManifestError>,
                      key: T -> string, duplicate: ManifestError): Result<seq<T>, ManifestError>
  {
    var items :- ListOf(v, max, invalid);
    var entries :- ParseAll(items, parse);
    if !DistinctKeys(entries, key) then Err(duplicate) else Ok(SortBy(entries, key))
  }

  // ----- entries -----

  function StorageRefOf(v: Value, e: ManifestError): Result<StorageRef, ManifestError> {
    var ref :- RecordOf(v, {StoreField, KeyField}, e);
    var store :- TextOf(Get(ref, StoreField), IsStore, e);
    var key :- TextOf(Get(ref, KeyField), IsStorageKey, e);
    Ok(StorageRef(store, key))
  }

  function RequestedUnitKeys(given: Value): Result<seq<string>, ManifestError> {
    Entries(if given.Undefined? || given.Null? then List([]) else given, MAX_UNITS, InvalidRequestedScope,
            UnitKeyText, (s: string) => s, DuplicateRequestedUnitKey)
  }

  function ParseRequestedScope(v: Value): Result<RequestedScope, ManifestError> {
    var scope :- RecordOf(v, {ScopeKindField, StartValueField, EndValueField, UnitKeysField}, InvalidRequestedScope);
    var unitKeys :- RequestedUnitKeys(Get(scope, UnitKeysField));
    ScopeWith(scope, unitKeys)
  }

  function ScopeWith(scope: Value, unitKeys: seq<string>): Result<RequestedScope, ManifestError>
    requires scope.Record?
  {
    var scopeKind :- TextOf(Get(scope, ScopeKindField), IsScopeKind, InvalidScopeKind);
    var startValue :- NullableValue(Get(scope, StartValueField), InvalidRequestedScope);
    var endValue :- NullableValue(Get(scope, EndValueField), InvalidRequestedScope);
    Ok(RequestedScope(scopeKind, startValue, endValue, unitKeys))
  }

  function UnitKeyText(v: Value): Result<string, ManifestError> {
    TextOf(v, IsIdent, InvalidRequestedScope)
  }

  function ParseArtifact(v: Value): Result<Artifact, ManifestError> {
    var entry :- RecordOf(v, {ArtifactKeyField, StorageRefField, Sha256Field, ByteSizeField, MediaTypeField,
                              RoleField, UnitKeyField}, InvalidArtifact);
    var sha256 :- TextOf(Get(entry, Sha256Field), Sha256Hex, KeyProblem(InvalidSha256));
    var ref :- StorageRefOf(Get(entry, StorageRefField), InvalidArtifactStorageRef);
    if Ok(ref.key) != ObjectKey(sha256) then Err(ArtifactStorageRefMismatch)
    else
      var unitKey :- OptionalText(Get(entry, UnitKeyField), IsIdent, InvalidArtifactUnitKey);
      var artifactKey :- TextOf(Get(entry, ArtifactKeyField), IsArtifactKey, InvalidArtifactKey);
      var byteSize :- CountOf(Get(entry, ByteSizeField), InvalidArtifactByteSize);
      var mediaType :- TextOf(Get(entry, MediaTypeField), IsMediaType, InvalidArtifactMediaType);
      var role :- TextOf(Get(entry, RoleField), IsSafeCode, InvalidArtifactRole);
      Ok(Artifact(artifactKey, ref, sha256, byteSize, mediaType, role, unitKey))
  }

  function ParseUnit(v: Value): Result<Unit, ManifestError> {
    var entry :- RecordOf(v, {UnitKeyField, UnitKindField, ArtifactCountField, CoverageStatusField,
                              SafeErrorCodeField}, InvalidUnit);
    var safeErrorCode :- OptionalText(Get(entry, SafeErrorCodeField), IsSafeCode, InvalidUnitSafeErrorCode);
    var unitKey :- TextOf(Get(entry, UnitKeyField), IsIdent, InvalidUnitKey);
    var unitKind :- TextOf(Get(entry, UnitKindField), IsSafeCode, InvalidUnitKind);
    var artifactCount :- CountOf(Get(entry, ArtifactCountField), InvalidUnitArtifactCount);
    var coverageStatus :- TextOf(Get(entry, CoverageStatusField), IsCoverageStatus, InvalidUnitCoverageStatus);
    Ok(Unit(unitKey, unitKind, artifactCount, coverageStatus, safeErrorCode))
  }

  function ParseRange(v: Value): Result<Range, ManifestError> {
    var entry :- RecordOf(v, {RangeKeyField, RangeKindField, PrecisionField, BasisField, StartValueField,
                              EndValueField, UnitKeyField}, InvalidRange);
    var startValue :- NullableValue(Get(entry, StartValueField), InvalidRangeStartValue);
    var endValue :- NullableValue(Get(entry, EndValueField), InvalidRangeEndValue);
    if startValue.None? && endValue.None? then Err(EmptyRange)
    else if startValue.Some? && endValue.Some? && Before(endValue.value, startValue.value) then Err(ReversedRange)
    else
      var unitKey :- OptionalText(Get(entry, UnitKeyField), IsIdent, InvalidRangeUnitKey);
      var rangeKey :- TextOf(Get(entry, RangeKeyField), IsIdent, InvalidRangeKey);
      var rangeKind :- TextOf(Get(entry, RangeKindField), IsRangeKind, InvalidRangeKind);
      var precision :- TextOf(Get(entry, PrecisionField), IsRangePrecision, InvalidRangePrecision);
      var basis :- TextOf(Get(entry, BasisField), IsRangeBasis, InvalidRangeBasis);
      Ok(Range(rangeKey, rangeKind, precision, basis, startValue, endValue, unitKey))
  }

  /** A report's key starts with the prefix its reference gives. */
  function ReportStorageRef(reportRef: string, ref: StorageRef): Result<StorageRef, ManifestError> {
    var prefix := REPORT_PREFIX + reportRef + "/";
    if !(prefix <= ref.key) || !RelativePath(ref.key[|prefix|..]) then Err(ReportStorageRefMismatch) else Ok(ref)
  }

  function OptionalReportRef(reportRef: string, v: Value): Result<Option<StorageRef>, ManifestError> {
    if v.Undefined? then Ok(None)
    else
      var ref :- StorageRefOf(v, InvalidReportStorageRef);
      var own :- ReportStorageRef(reportRef, ref);
      Ok(Some(own))
  }

  function ParseReport(v: Value): Result<Report, ManifestError> {
    var entry :- RecordOf(v, {ReportRefField, ReportKindField, ScopeField, OutcomeField, UnitKeyField,
                              StorageRefField, SafeErrorCodeField}, InvalidReport);
    var unitKey :- OptionalText(Get(entry, UnitKeyField), IsIdent, InvalidReportUnitKey);
    var safeErrorCode :- OptionalText(Get(entry, SafeErrorCodeField), IsSafeCode, InvalidReportSafeErrorCode);
    var scope :- TextOf(Get(entry, ScopeField), IsReportScope, InvalidReportScope);
    if scope == "unit" && unitKey.None? then Err(ReportUnitKeyRequired)
    else
      var reportRef :- TextOf(Get(entry, ReportRefField), RunId, BadReportRef);
      var ref :- OptionalReportRef(reportRef, Get(entry, StorageRefField));
      var reportKind :- TextOf(Get(entry, ReportKindField), IsSafeCode, InvalidReportKind);
      var outcome :- TextOf(Get(entry, OutcomeField), IsProviderOutcome, InvalidReportOutcome);
      Ok(Report(reportRef, reportKind, scope, outcome, unitKey, ref, safeErrorCode))
  }

  function InputText(v: Value): Result<string, ManifestError> {
    TextOf(v, IsArtifactKey, InvalidTransformationInputs)
  }

  function ParseTransformation(v: Value): Result<Transformation, ManifestError> {
    var entry :- RecordOf(v, {TransformationIdField, StepKindField, TransformerIdField, TransformerVersionField,
                              InputArtifactKeysField, OutputArtifactKeyField}, InvalidTransformation);
    var listed :- ListOf(Get(entry, InputArtifactKeysField), MAX_ARTIFACTS, InvalidTransformationInputs);
    var inputs :- ParseAll(listed, InputText);
    if !DistinctKeys(inputs, (s: string) => s) then Err(DuplicateTransformationInput)
    else
      var transformationId :- TextOf(Get(entry, TransformationIdField), IsIdent, InvalidTransformationId);
      var stepKind :- TextOf(Get(entry, StepKindField), IsStepKind, InvalidTransformationStepKind);
      var transformerId :- TextOf(Get(entry, TransformerIdField), IsIdent, InvalidTransformerId);
      var transformerVersion :- TextOf(Get(entry, TransformerVersionField), IsIdent, InvalidTransformerVersion);
      var output :- TextOf(Get(entry, OutputArtifactKeyField), IsArtifactKey, InvalidTransformationOutput);
      Ok(Transformation(transformationId, stepKind, transformerId, transformerVersion, inputs, output))
  }

  // ----- the manifest -----

  predicate Known(unitKey: Option<string>, units: set<string>) {
    unitKey.Some? ==> unitKey.value in units
  }

  predicate AllKnown<T>(xs: seq<T>, unitKey: T -> Option<string>, units: set<string>) {
    forall i :: 0 <= i < |xs| ==> Known(unitKey(xs[i]), units)
  }

  /** Why a transformation is refused against the run's artifacts, if it is. */
  function TransformationProblem(t: Transformation, artifactKeys: set<string>): Option<ManifestError> {
    if t.outputArtifactKey !in artifactKeys then Some(TransformationOutputUnknown)
    else if t.outputArtifactKey in t.inputArtifactKeys then Some(TransformationSelfReference)
    else None
  }

  function FirstProblem(ts: seq<Transformation>, artifactKeys: set<string>): Option<ManifestError> {
    if ts == [] then None
    else
      var problem := TransformationProblem(ts[0], artifactKeys);
      if problem.Some? then problem else FirstProblem(ts[1..], artifactKeys)
  }

  function ArtifactKeyOf(a: Artifact): string {
    a.artifactKey
  }

  function UnitKeyOf(u: Unit): string {
    u.unitKey
  }

  function RangeKeyOf(r: Range): string {
    r.rangeKey
  }

  function ReportRefOf(r: Report): string {
    r.reportRef
  }

  function TransformationIdOf(t: Transformation): string {
    t.transformationId
  }

  function ArtifactsOf(v: Value): Result<seq<Artifact>, ManifestError> {
    Entries(v, MAX_ARTIFACTS, InvalidArtifacts, ParseArtifact, ArtifactKeyOf, DuplicateArtifactKey)
  }

  function UnitsOf(v: Value): Result<seq<Unit>, ManifestError> {
    Entries(v, MAX_UNITS, InvalidUnits, ParseUnit, UnitKeyOf, DuplicateUnitKey)
  }

  function RangesOf(v: Value): Result<seq<Range>, ManifestError> {
    Entries(v, MAX_RANGES, InvalidRanges, ParseRange, RangeKeyOf, DuplicateRangeKey)
  }

  function ReportsOf(v: Value): Result<seq<Report>, ManifestError> {
    Entries(v, MAX_REPORTS, InvalidReports, ParseReport, ReportRefOf, DuplicateReportRef)
  }

  function TransformationsOf(v: Value): Result<seq<Transformation>, ManifestError> {
    Entries(v, MAX_TRANSFORMATIONS, InvalidTransformations, ParseTransformation,
            TransformationIdOf, DuplicateTransformationId)
  }

  function UnitKeySet(units: seq<Unit>): set<string> {
    KeySet(units, UnitKeyOf)
  }

  function ArtifactKeySet(artifacts: seq<Artifact>): set<string> {
    KeySet(artifacts, ArtifactKeyOf)
  }

  /** The five lists and their cross-references, in the order they are checked. */
  function CheckedLists(artifacts: Result<seq<Artifact>, ManifestError>, units: Result<seq<Unit>, ManifestError>,
                        ranges: Result<seq<Range>, ManifestError>, reports: Result<seq<Report>, ManifestError>,
                        transformations: Result<seq<Transformation>, ManifestError>): Result<Lists, ManifestError>
  {
    if artifacts.Err? then Err(artifacts.error)
    else if units.Err? then Err(units.error)
    else
      var unitKeys := UnitKeySet(units.value);
      if !AllKnown(artifacts.value, (a: Artifact) => a.unitKey, unitKeys) then Err(ArtifactUnitKeyUnknown)
      else if ranges.Err? then Err(ranges.error)
      else if !AllKnown(ranges.value, (r: Range) => r.unitKey, unitKeys) then Err(RangeUnitKeyUnknown)
      else if reports.Err? then Err(reports.error)
      else if !AllKnown(reports.value, (r: Report) => r.unitKey, unitKeys) then Err(ReportUnitKeyUnknown)
      else if transformations.Err? then Err(transformations.error)
      else
        var problem := FirstProblem(transformations.value, ArtifactKeySet(artifacts.value));
        if problem.Some? then Err(problem.value)
        else Ok(Lists(artifacts.value, units.value, ranges.value, reports.value, transformations.value))
  }

  function ListsOf(body: Value): Result<Lists, ManifestError>
    requires body.Record?
  {
    CheckedLists(ArtifactsOf(Get(body, ArtifactsField)), UnitsOf(Get(body, UnitsField)),
                 RangesOf(Get(body, RangesField)), ReportsOf(Get(body, ReportsField)),
                 TransformationsOf(Get(body, TransformationsField)))
  }

  function WindowOf(dates: Dates, body: Value): Result<Window, ManifestError>
    requires body.Record?
  {
    var startedAt :- InstantOf(dates, Get(body, StartedAtField), InvalidStartedAt);
    var completedAt :- InstantOf(dates, Get(body, CompletedAtField), InvalidCompletedAt);
    if dates.parse(completedAt).value < dates.parse(startedAt).value then Err(ReversedRunWindow)
    else Ok(Window(startedAt, completedAt))
  }

  /** Complete coverage goes with success only, and an error code with everything else. */
  function VerdictOf(body: Value): Result<Verdict, ManifestError>
    requires body.Record?
  {
    var outcome :- TextOf(Get(body, ProviderOutcomeField), IsProviderOutcome, InvalidProviderOutcome);
    var coverage :- TextOf(Get(body, CoverageStatusField), IsCoverageStatus, InvalidCoverageStatus);
    var code :- OptionalText(Get(body, SafeErrorCodeField), IsSafeCode, InvalidSafeErrorCode);
    if outcome != "success" && coverage == "complete" then Err(IncompleteRunClaimsCompleteCoverage)
    else if outcome != "success" && code.None? then Err(SafeErrorCodeRequired)
    else if outcome == "success" && code.Some? then Err(SafeErrorCodeOnSuccess)
    else Ok(Verdict(outcome, coverage, code))
  }

  function IdentityOf(body: Value): Result<Identity, ManifestError>
    requires body.Record?
  {
    var operationId :- OptionalText(Get(body, OperationIdField), IsIdent, InvalidOperationId);
    var session :- OptionalText(Get(body, AcquisitionSessionRefField), IsIdent, InvalidAcquisitionSessionRef);
    var source :- TextOf(Get(body, SourceField), SourceId, KeyProblem(InvalidSource));
    var producer :- TextOf(Get(body, ProducerField), IsSafeCode, InvalidProducer);
    var producerVersion :- TextOf(Get(body, ProducerVersionField), IsIdent, InvalidProducerVersion);
    var runId :- TextOf(Get(body, RunIdField), RunId, KeyProblem(InvalidRunId));
    var attemptId :- TextOf(Get(body, AttemptIdField), IsIdent, InvalidAttemptId);
    Ok(Identity(operationId, session, source, producer, producerVersion, runId, attemptId))
  }

  /** What the parser refuses before it looks at anything else. */
  function PreambleProblem(input: Value): Option<ManifestError> {
    if !input.Record? then Some(InvalidManifest)
    else if !(forall f :: f in input.fields ==> IsManifestField(f)) then Some(UnknownField)
    else if Get(input, ManifestVersionField) != Text(TERMINAL_MANIFEST_VERSION) then Some(InvalidManifestVersion)
    else if Get(input, PersistenceCompleteField) != Bool(true) then Some(InvalidPersistenceComplete)
    else None
  }

  /** The groups in the order they are checked; the first that failed decides. */
  function Assembled(window: Result<Window, ManifestError>, lists: Result<Lists, ManifestError>,
                     verdict: Result<Verdict, ManifestError>, identity: Result<Identity, ManifestError>,
                     scope: Result<RequestedScope, ManifestError>): Result<TerminalManifest, ManifestError>
  {
    if window.Err? then Err(window.error)
    else if lists.Err? then Err(lists.error)
    else if verdict.Err? then Err(verdict.error)
    else if identity.Err? then Err(identity.error)
    else if scope.Err? then Err(scope.error)
    else Ok(TerminalManifest(identity.value, scope.value, window.value, verdict.value, lists.value))
  }

  function Parsed(dates: Dates, input: Value): Result<TerminalManifest, ManifestError> {
    var problem := PreambleProblem(input);
    if problem.Some? then Err(problem.value)
    else
      Assembled(WindowOf(dates, input), ListsOf(input), VerdictOf(input), IdentityOf(input),
                ParseRequestedScope(Get(input, RequestedScopeField)))
  }

  // ----- the parser's loops -----

  /** Does an entry name a unit the run does not have? */
  method FindUnknownUnit<T>(xs: seq<T>, unitKey: T -> Option<string>, units: set<string>) returns (found: bool)
    ensures found <==> !AllKnown(xs, unitKey, units)
  {
    for i := 0 to |xs|
      invariant forall j :: 0 <= j < i ==> Known(unitKey(xs[j]), units)
    {
      if !Known(unitKey(xs[i]), units) {
        return true;
      }
    }
    found := false;
  }

  method CheckTransformations(ts: seq<Transformation>, artifactKeys: set<string>)
    returns (problem: Option<ManifestError>)
    ensures problem == FirstProblem(ts, artifactKeys)
  {
    for i := 0 to |ts|
      invariant FirstProblem(ts[i..], artifactKeys) == FirstProblem(ts, artifactKeys)
    {
      var t := ts[i];
      assert ts[i..][1..] == ts[i + 1..];
      if t.outputArtifactKey !in artifactKeys {
        return Some(TransformationOutputUnknown);
      }
      for k := 0 to |t.inputArtifactKeys|
        invariant t.outputArtifactKey !in t.inputArtifactKeys[..k]
      {
        if t.inputArtifactKeys[k] == t.outputArtifactKey {
          return Some(TransformationSelfReference);
        }
      }
      assert t.inputArtifactKeys[..|t.inputArtifactKeys|] == t.inputArtifactKeys;
    }
    problem := None;
  }

  method CheckLists(body: Value) returns (r: Result<Lists, ManifestError>)
    requires body.Record?
    ensures r == ListsOf(body)
  {
    var artifacts :- ArtifactsOf(Get(body, ArtifactsField));
    var units :- UnitsOf(Get(body, UnitsField));
    var unitKeys := UnitKeySet(units);
    var unknown := FindUnknownUnit(artifacts, (a: Artifact) => a.unitKey, unitKeys);
    if unknown {
      return Err(ArtifactUnitKeyUnknown);
    }
    var ranges :- RangesOf(Get(body, RangesField));
    unknown := FindUnknownUnit(ranges, (r: Range) => r.unitKey, unitKeys);
    if unknown {
      return Err(RangeUnitKeyUnknown);
    }
    var reports :- ReportsOf(Get(body, ReportsField));
    unknown := FindUnknownUnit(reports, (r: Report) => r.unitKey, unitKeys);
    if unknown {
      return Err(ReportUnitKeyUnknown);
    }
    var transformations :- TransformationsOf(Get(body, TransformationsField));
    var problem := CheckTransformations(transformations, ArtifactKeySet(artifacts));
    if problem.Some? {
      return Err(problem.value);
    }
    return Ok(Lists(artifacts, units, ranges, reports, transformations));
  }

  method ParseTerminalManifest(dates: Dates, input: Value) returns (r: Result<TerminalManifest, ManifestError>)
    ensures r == Parsed(dates, input)
  {
    var problem := PreambleProblem(input);
    if problem.Some? {
      return Err(problem.value);
    }
    var window :- WindowOf(dates, input);
    var lists :- CheckLists(input);
    var verdict :- VerdictOf(input);
    var identity :- IdentityOf(input);
    var scope :- ParseRequestedScope(Get(input, RequestedScopeField));
    return Ok(TerminalManifest(identity, scope, window, verdict, lists));
  }
}
