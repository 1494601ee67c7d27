/**
  What a terminal manifest means, stated without its parser: which inputs say a given manifest, and which
  manifests are lawful.  The parser accepts an input exactly when it says a lawful manifest, and returns that one.
*/
module ManifestMeaning {
  import opened Keys
  import opened Manifest
  import opened ManifestNormal
  import opened Sorting
  import opened Wrappers

  // ----- single values -----

  /** An absent property is undefined. */
  predicate SaysOptional(v: Value, text: Option<string>) {
    if text.None? then v == Undefined else v == Text(text.value)
  }

  /** An absent bound is undefined or null. */
  predicate SaysNullable(v: Value, text: Option<string>) {
    if text.None? then v == Undefined || v == Null else v == Text(text.value)
  }

  predicate OnlyFields(v: Value, names: set<Field>) {
    v.Record? && forall f :: f in v.fields ==> f in names
  }

  predicate OptionalOk(text: Option<string>, pattern: string -> bool) {
    text.Some? ==> pattern(text.value)
  }

  predicate SaysTexts(v: Value, texts: seq<string>) {
    v.List? && |v.items| == |texts| && forall i :: 0 <= i < |texts| ==> v.items[i] == Text(texts[i])
  }

  ghost predicate AllDiffer(texts: seq<string>) {
    forall i, j :: 0 <= i < j < |texts| ==> texts[i] != texts[j]
  }

  lemma AllDifferIff(texts: seq<string>)
    ensures AllDiffer(texts) <==> DistinctKeys(texts, (s: string) => s)
  {
    if DistinctKeys(texts, (s: string) => s) {
      forall i, j | 0 <= i < j < |texts| ensures texts[i] != texts[j] {
        DistinctKeysDiffer(texts, (s: string) => s, i, j);
      }
    }
    if AllDiffer(texts) {
      DifferingKeysAreDistinct(texts, (s: string) => s);
    }
  }

  // ----- entries -----

  predicate SaysRef(v: Value, ref: StorageRef) {
    OnlyFields(v, {StoreField, KeyField}) && Get(v, StoreField) == Text(ref.store) && Get(v, KeyField) == Text(ref.key)
  }

  predicate RefOk(ref: StorageRef) {
    ref.store == "DATA" && 1 <= |ref.key| <= 1024
  }

  lemma RefMeaning(v: Value, e: ManifestError, ref: StorageRef)
    ensures StorageRefOf(v, e) == Ok(ref) <==> SaysRef(v, ref) && RefOk(ref)
  {
  }

  predicate SaysArtifact(v: Value, a: Artifact) {
    && OnlyFields(v, {ArtifactKeyField, StorageRefField, Sha256Field, ByteSizeField, MediaTypeField, RoleField, UnitKeyField})
    && Get(v, ArtifactKeyField) == Text(a.artifactKey)
    && SaysRef(Get(v, StorageRefField), a.storageRef)
    && Get(v, Sha256Field) == Text(a.sha256)
    && Get(v, ByteSizeField) == Number(a.byteSize)
    && Get(v, MediaTypeField) == Text(a.mediaType)
    && Get(v, RoleField) == Text(a.role)
    && SaysOptional(Get(v, UnitKeyField), a.unitKey)
  }

  predicate ArtifactOk(a: Artifact) {
    && IsArtifactKey(a.artifactKey) && Sha256Hex(a.sha256) && RefOk(a.storageRef)
    && ObjectKey(a.sha256) == Ok(a.storageRef.key)
    && a.byteSize <= MAX_SAFE_INTEGER && IsMediaType(a.mediaType) && IsSafeCode(a.role) && OptionalOk(a.unitKey, IsIdent)
  }

  lemma ArtifactMeaning(v: Value, a: Artifact)
    ensures ParseArtifact(v) == Ok(a) <==> SaysArtifact(v, a) && ArtifactOk(a)
  {
    if v.Record? {
      RefMeaning(Get(v, StorageRefField), InvalidArtifactStorageRef, a.storageRef);
    }
  }

  predicate SaysUnit(v: Value, u: Unit) {
    && OnlyFields(v, {UnitKeyField, UnitKindField, ArtifactCountField, CoverageStatusField, SafeErrorCodeField})
    && Get(v, UnitKeyField) == Text(u.unitKey)
    && Get(v, UnitKindField) == Text(u.unitKind)
    && Get(v, ArtifactCountField) == Number(u.artifactCount)
    && Get(v, CoverageStatusField) == Text(u.coverageStatus)
    && SaysOptional(Get(v, SafeErrorCodeField), u.safeErrorCode)
  }

  predicate UnitOk(u: Unit) {
    && IsIdent(u.unitKey) && IsSafeCode(u.unitKind) && u.artifactCount <= MAX_SAFE_INTEGER
    && u.coverageStatus in ["complete", "partial", "unknown"] && OptionalOk(u.safeErrorCode, IsSafeCode)
  }

  lemma UnitMeaning(v: Value, u: Unit)
    ensures ParseUnit(v) == Ok(u) <==> SaysUnit(v, u) && UnitOk(u)
  {
  }

  predicate SaysRange(v: Value, r: Range) {
    && OnlyFields(v, {RangeKeyField, RangeKindField, PrecisionField, BasisField, StartValueField, EndValueField, UnitKeyField})
    && Get(v, RangeKeyField) == Text(r.rangeKey)
    && Get(v, RangeKindField) == Text(r.rangeKind)
    && Get(v, PrecisionField) == Text(r.precision)
    && Get(v, BasisField) == Text(r.basis)
    && SaysNullable(Get(v, StartValueField), r.startValue)
    && SaysNullable(Get(v, EndValueField), r.endValue)
    && SaysOptional(Get(v, UnitKeyField), r.unitKey)
  }

  /** At least one bound, and the start not after the end. */
  predicate RangeOk(r: Range) {
    && IsIdent(r.rangeKey)
    && r.rangeKind in ["requested", "declared_coverage", "selector"]
    && r.precision in ["instant", "date", "month"]
    && r.basis in ["source", "request", "manifest", "operator"]
    && OptionalOk(r.startValue, IsNullable) && OptionalOk(r.endValue, IsNullable)
    && (r.startValue.Some? || r.endValue.Some?)
    && (r.startValue.Some? && r.endValue.Some? ==> !Before(r.endValue.value, r.startValue.value))
    && OptionalOk(r.unitKey, IsIdent)
  }

  lemma RangeParsed(v: Value, r: Range)
    requires ParseRange(v) == Ok(r)
    ensures SaysRange(v, r) && RangeOk(r)
  {
  }

  lemma RangeSaid(v: Value, r: Range)
    requires SaysRange(v, r) && RangeOk(r)
    ensures ParseRange(v) == Ok(r)
  {
  }

  lemma RangeMeaning(v: Value, r: Range)
    ensures ParseRange(v) == Ok(r) <==> SaysRange(v, r) && RangeOk(r)
  {
    if ParseRange(v) == Ok(r) {
      RangeParsed(v, r);
    }
    if SaysRange(v, r) && RangeOk(r) {
      RangeSaid(v, r);
    }
  }

  predicate SaysReport(v: Value, r: Report) {
    && OnlyFields(v, {ReportRefField, ReportKindField, ScopeField, OutcomeField, UnitKeyField, StorageRefField,
                      SafeErrorCodeField})
    && Get(v, ReportRefField) == Text(r.reportRef)
    && Get(v, ReportKindField) == Text(r.reportKind)
    && Get(v, ScopeField) == Text(r.scope)
    && Get(v, OutcomeField) == Text(r.outcome)
    && SaysOptional(Get(v, UnitKeyField), r.unitKey)
    && (if r.storageRef.None? then Get(v, StorageRefField) == Undefined
        else SaysRef(Get(v, StorageRefField), r.storageRef.value))
    && SaysOptional(Get(v, SafeErrorCodeField), r.safeErrorCode)
  }

  /** A unit's report names its unit; a stored report lies under its own reference's prefix. */
  predicate ReportOk(r: Report) {
    && RunId(r.reportRef) && IsSafeCode(r.reportKind)
    && r.scope in ["run", "unit"] && r.outcome in ["success", "partial", "failed"]
    && OptionalOk(r.unitKey, IsIdent) && OptionalOk(r.safeErrorCode, IsSafeCode)
    && (r.scope == "unit" ==> r.unitKey.Some?)
    && (r.storageRef.Some? ==> RefOk(r.storageRef.value) && OwnReportKey(r.reportRef, r.storageRef.value.key))
  }

  predicate OwnReportKey(reportRef: string, key: string) {
    var prefix := REPORT_PREFIX + reportRef + "/";
    prefix <= key && RelativePath(key[|prefix|..])
  }

  lemma ReportRefMeaning(reportRef: string, v: Value, ref: Option<StorageRef>)
    ensures OptionalReportRef(reportRef, v) == Ok(ref) <==>
              && (if ref.None? then v == Undefined else SaysRef(v, ref.value))
              && (ref.Some? ==> RefOk(ref.value) && OwnReportKey(reportRef, ref.value.key))
  {
    if ref.Some? {
      RefMeaning(v, InvalidReportStorageRef, ref.value);
    }
  }

  lemma ReportParsed(v: Value, r: Report)
    requires ParseReport(v) == Ok(r)
    ensures SaysReport(v, r) && ReportOk(r)
  {
    ReportRefMeaning(r.reportRef, Get(v, StorageRefField), r.storageRef);
  }

  lemma ReportSaid(v: Value, r: Report)
    requires SaysReport(v, r) && ReportOk(r)
    ensures ParseReport(v) == Ok(r)
  {
    ReportRefMeaning(r.reportRef, Get(v, StorageRefField), r.storageRef);
  }

  lemma ReportMeaning(v: Value, r: Report)
    ensures ParseReport(v) == Ok(r) <==> SaysReport(v, r) && ReportOk(r)
  {
    if ParseReport(v) == Ok(r) {
      ReportParsed(v, r);
    }
    if SaysReport(v, r) && ReportOk(r) {
      ReportSaid(v, r);
    }
  }

  predicate SaysTransformation(v: Value, t: Transformation) {
    && OnlyFields(v, {TransformationIdField, StepKindField, TransformerIdField, TransformerVersionField,
                      InputArtifactKeysField, OutputArtifactKeyField})
    && Get(v, TransformationIdField) == Text(t.transformationId)
    && Get(v, StepKindField) == Text(t.stepKind)
    && Get(v, TransformerIdField) == Text(t.transformerId)
    && Get(v, TransformerVersionField) == Text(t.transformerVersion)
    && SaysTexts(Get(v, InputArtifactKeysField), t.inputArtifactKeys)
    && Get(v, OutputArtifactKeyField) == Text(t.outputArtifactKey)
  }

  ghost predicate TransformationOk(t: Transformation) {
    && IsIdent(t.transformationId) && IsStepKind(t.stepKind) && IsIdent(t.transformerId) && IsIdent(t.transformerVersion)
    && |t.inputArtifactKeys| <= MAX_ARTIFACTS && AllDiffer(t.inputArtifactKeys)
    && (forall i :: 0 <= i < |t.inputArtifactKeys| ==> IsArtifactKey(t.inputArtifactKeys[i]))
    && IsArtifactKey(t.outputArtifactKey)
  }

  predicate SaysEach(items: seq<Value>, pattern: string -> bool, texts: seq<string>) {
    |items| == |texts| && forall i :: 0 <= i < |texts| ==> items[i] == Text(texts[i]) && pattern(texts[i])
  }

  lemma TextsMeaning(items: seq<Value>, pattern: string -> bool, parse: Value -> Result<string, ManifestError>,
                     e: ManifestError, texts: seq<string>)
    requires forall v :: parse(v) == TextOf(v, pattern, e)
    ensures ParseAll(items, parse) == Ok(texts) <==> SaysEach(items, pattern, texts)
  {
    ParseAllMeaning(items, parse);
    if SaysEach(items, pattern, texts) {
      forall v | v in items ensures parse(v).Ok? {
        var i :| 0 <= i < |items| && items[i] == v;
        assert items[i] == Text(texts[i]) && pattern(texts[i]);
      }
      forall i | 0 <= i < |texts| ensures ParseAll(items, parse).value[i] == texts[i] {
        assert parse(items[i]) == Ok(texts[i]);
      }
      assert ParseAll(items, parse).value == texts;
    }
    if ParseAll(items, parse) == Ok(texts) {
      forall i | 0 <= i < |texts| ensures items[i] == Text(texts[i]) && pattern(texts[i]) {
        assert parse(items[i]) == Ok(texts[i]);
      }
    }
  }

  lemma TransformationMeaning(v: Value, t: Transformation)
    ensures ParseTransformation(v) == Ok(t) <==> SaysTransformation(v, t) && TransformationOk(t)
  {
    if v.Record? && Get(v, InputArtifactKeysField).List? {
      TextsMeaning(Get(v, InputArtifactKeysField).items, IsArtifactKey, InputText, InvalidTransformationInputs,
                   t.inputArtifactKeys);
      AllDifferIff(t.inputArtifactKeys);
    }
  }

  // ----- lists -----

  /** The items say these entries, in whatever order. */
  ghost predicate SaysInOrder<T(!new)>(items: seq<Value>, order: seq<T>, says: (Value, T) -> bool) {
    |items| == |order| && forall i :: 0 <= i < |order| ==> says(items[i], order[i])
  }

  ghost predicate SaysList<T(!new)>(v: Value, xs: seq<T>, says: (Value, T) -> bool) {
    v.List? && exists order :: multiset(order) == multiset(xs) && SaysInOrder(v.items, order, says)
  }

  /** At most so many entries, each lawful, in strictly ascending order of their keys, so no two with one key. */
  ghost predicate ListOk<T(!new)>(xs: seq<T>, max: nat, ok: T -> bool, key: T -> string) {
    |xs| <= max && Ascending(xs, key) && forall x :: x in xs ==> ok(x)
  }

  ghost predicate Means<T(!new)>(parse: Value -> Result<T, ManifestError>, says: (Value, T) -> bool, ok: T -> bool,
                                 v: Value, x: T)
  {
    parse(v) == Ok(x) <==> says(v, x) && ok(x)
  }

  lemma EntriesSaid<T(!new)>(v: Value, max: nat, invalid: ManifestError, parse: Value -> Result<T, ManifestError>,
                             key: T -> string, duplicate: ManifestError, says: (Value, T) -> bool, ok: T -> bool,
                             xs: seq<T>)
    requires forall w, x :: Means(parse, says, ok, w, x)
    requires Entries(v, max, invalid, parse, key, duplicate) == Ok(xs)
    ensures SaysList(v, xs, says) && ListOk(xs, max, ok, key)
  {
    var parsed := ParseAll(v.items, parse).value;
    ParseAllMeaning(v.items, parse);
    forall i | 0 <= i < |parsed| ensures says(v.items[i], parsed[i]) && ok(parsed[i]) {
      assert Means(parse, says, ok, v.items[i], parsed[i]);
    }
    assert SaysInOrder(v.items, parsed, says);
    SortByAscends(parsed, key);
    forall x | x in xs ensures ok(x) {
      assert x in multiset(parsed);
    }
  }

  lemma SaidEntries<T(!new)>(v: Value, max: nat, invalid: ManifestError, parse: Value -> Result<T, ManifestError>,
                             key: T -> string, duplicate: ManifestError, says: (Value, T) -> bool, ok: T -> bool,
                             xs: seq<T>)
    requires forall w, x :: Means(parse, says, ok, w, x)
    requires SaysList(v, xs, says) && ListOk(xs, max, ok, key)
    ensures Entries(v, max, invalid, parse, key, duplicate) == Ok(xs)
  {
    var order :| multiset(order) == multiset(xs) && SaysInOrder(v.items, order, says);
    AscendingAreDistinct(xs, key);
    SameKeys(xs, order, key);
    forall i | 0 <= i < |order| ensures parse(v.items[i]) == Ok(order[i]) {
      assert order[i] in multiset(xs);
      assert Means(parse, says, ok, v.items[i], order[i]);
    }
    ParsedInOrder(v.items, order, parse);
    SortByAscends(order, key);
    AscendingIsUnique(SortBy(order, key), xs, key);
  }

  lemma ParsedInOrder<T(!new)>(items: seq<Value>, order: seq<T>, parse: Value -> Result<T, ManifestError>)
    requires |items| == |order| && forall i :: 0 <= i < |order| ==> parse(items[i]) == Ok(order[i])
    ensures ParseAll(items, parse) == Ok(order)
  {
    ParseAllMeaning(items, parse);
    forall v | v in items ensures parse(v).Ok? {
      var i :| 0 <= i < |items| && items[i] == v;
      assert parse(items[i]) == Ok(order[i]);
    }
    assert ParseAll(items, parse).value == order;
  }

  lemma EntriesMeaning<T(!new)>(v: Value, max: nat, invalid: ManifestError, parse: Value -> Result<T, ManifestError>,
                                key: T -> string, duplicate: ManifestError, says: (Value, T) -> bool, ok: T -> bool,
                                xs: seq<T>)
    requires forall w, x :: Means(parse, says, ok, w, x)
    ensures Entries(v, max, invalid, parse, key, duplicate) == Ok(xs) <==> SaysList(v, xs, says) && ListOk(xs, max, ok, key)
  {
    if Entries(v, max, invalid, parse, key, duplicate) == Ok(xs) {
      EntriesSaid(v, max, invalid, parse, key, duplicate, says, ok, xs);
    }
    if SaysList(v, xs, says) && ListOk(xs, max, ok, key) {
      SaidEntries(v, max, invalid, parse, key, duplicate, says, ok, xs);
    }
  }

  lemma ArtifactsMeaning(v: Value, xs: seq<Artifact>)
    ensures ArtifactsOf(v) == Ok(xs) <==> SaysList(v, xs, SaysArtifact) && ListOk(xs, MAX_ARTIFACTS, ArtifactOk, ArtifactKeyOf)
  {
    forall w, x ensures Means(ParseArtifact, SaysArtifact, ArtifactOk, w, x) {
      ArtifactMeaning(w, x);
    }
    EntriesMeaning(v, MAX_ARTIFACTS, InvalidArtifacts, ParseArtifact, ArtifactKeyOf, DuplicateArtifactKey,
                   SaysArtifact, ArtifactOk, xs);
  }

  lemma UnitsMeaning(v: Value, xs: seq<Unit>)
    ensures UnitsOf(v) == Ok(xs) <==> SaysList(v, xs, SaysUnit) && ListOk(xs, MAX_UNITS, UnitOk, UnitKeyOf)
  {
    forall w, x ensures Means(ParseUnit, SaysUnit, UnitOk, w, x) {
      UnitMeaning(w, x);
    }
    EntriesMeaning(v, MAX_UNITS, InvalidUnits, ParseUnit, UnitKeyOf, DuplicateUnitKey, SaysUnit, UnitOk, xs);
  }

  lemma RangesMeaning(v: Value, xs: seq<Range>)
    ensures RangesOf(v) == Ok(xs) <==> SaysList(v, xs, SaysRange) && ListOk(xs, MAX_RANGES, RangeOk, RangeKeyOf)
  {
    forall w, x ensures Means(ParseRange, SaysRange, RangeOk, w, x) {
      RangeMeaning(w, x);
    }
    EntriesMeaning(v, MAX_RANGES, InvalidRanges, ParseRange, RangeKeyOf, DuplicateRangeKey, SaysRange, RangeOk, xs);
  }

  lemma ReportsMeaning(v: Value, xs: seq<Report>)
    ensures ReportsOf(v) == Ok(xs) <==> SaysList(v, xs, SaysReport) && ListOk(xs, MAX_REPORTS, ReportOk, ReportRefOf)
  {
    forall w, x ensures Means(ParseReport, SaysReport, ReportOk, w, x) {
      ReportMeaning(w, x);
    }
    EntriesMeaning(v, MAX_REPORTS, InvalidReports, ParseReport, ReportRefOf, DuplicateReportRef, SaysReport, ReportOk, xs);
  }

  lemma TransformationsMeaning(v: Value, xs: seq<Transformation>)
    ensures TransformationsOf(v) == Ok(xs) <==>
              && SaysList(v, xs, SaysTransformation)
              && ListOk(xs, MAX_TRANSFORMATIONS, TransformationOk, TransformationIdOf)
  {
    forall w, x ensures Means(ParseTransformation, SaysTransformation, TransformationOk, w, x) {
      TransformationMeaning(w, x);
    }
    EntriesMeaning(v, MAX_TRANSFORMATIONS, InvalidTransformations, ParseTransformation, TransformationIdOf,
                   DuplicateTransformationId, SaysTransformation, TransformationOk, xs);
  }

  // ----- the lists together -----

  /** Some unit of the run has the key, if there is one. */
  predicate NamesUnit(unitKey: Option<string>, units: seq<Unit>) {
    unitKey.Some? ==> exists j :: 0 <= j < |units| && units[j].unitKey == unitKey.value
  }

  /** A transformation's output is an artifact of the run and not one of its own inputs. */
  predicate OutputOk(t: Transformation, artifacts: seq<Artifact>) {
    && (exists j :: 0 <= j < |artifacts| && artifacts[j].artifactKey == t.outputArtifactKey)
    && t.outputArtifactKey !in t.inputArtifactKeys
  }

  ghost predicate ReferencesOk(l: Lists) {
    && (forall a :: a in l.artifacts ==> NamesUnit(a.unitKey, l.units))
    && (forall r :: r in l.ranges ==> NamesUnit(r.unitKey, l.units))
    && (forall r :: r in l.reports ==> NamesUnit(r.unitKey, l.units))
    && (forall t :: t in l.transformations ==> OutputOk(t, l.artifacts))
  }

  lemma AllKnownIff<T(!new)>(xs: seq<T>, unitKey: T -> Option<string>, units: seq<Unit>)
    ensures AllKnown(xs, unitKey, UnitKeySet(units)) <==> forall x :: x in xs ==> NamesUnit(unitKey(x), units)
  {
    forall k: Option<string> ensures Known(k, UnitKeySet(units)) <==> NamesUnit(k, units) {
      if k.Some? && exists j :: 0 <= j < |units| && units[j].unitKey == k.value {
        var j :| 0 <= j < |units| && units[j].unitKey == k.value;
        assert UnitKeyOf(units[j]) in UnitKeySet(units);
      }
    }
    if AllKnown(xs, unitKey, UnitKeySet(units)) {
      forall x | x in xs ensures NamesUnit(unitKey(x), units) {
        var i :| 0 <= i < |xs| && xs[i] == x;
        assert Known(unitKey(xs[i]), UnitKeySet(units));
      }
    }
  }

  lemma OutputIsArtifactIff(t: Transformation, artifacts: seq<Artifact>)
    ensures TransformationProblem(t, ArtifactKeySet(artifacts)).None? <==> OutputOk(t, artifacts)
  {
    if j :| 0 <= j < |artifacts| && artifacts[j].artifactKey == t.outputArtifactKey {
      assert ArtifactKeyOf(artifacts[j]) in ArtifactKeySet(artifacts);
    }
    if t.outputArtifactKey in ArtifactKeySet(artifacts) {
      var j :| 0 <= j < |artifacts| && ArtifactKeyOf(artifacts[j]) == t.outputArtifactKey;
    }
  }

  lemma {:induction false} NoProblemIff(ts: seq<Transformation>, artifacts: seq<Artifact>)
    ensures FirstProblem(ts, ArtifactKeySet(artifacts)).None? <==> forall t :: t in ts ==> OutputOk(t, artifacts)
  {
    if ts != [] {
      NoProblemIff(ts[1..], artifacts);
      assert ts == [ts[0]] + ts[1..];
      OutputIsArtifactIff(ts[0], artifacts);
    }
  }

  ghost predicate SaysLists(v: Value, l: Lists)
    requires v.Record?
  {
    && SaysList(Get(v, ArtifactsField), l.artifacts, SaysArtifact)
    && SaysList(Get(v, UnitsField), l.units, SaysUnit)
    && SaysList(Get(v, RangesField), l.ranges, SaysRange)
    && SaysList(Get(v, ReportsField), l.reports, SaysReport)
    && SaysList(Get(v, TransformationsField), l.transformations, SaysTransformation)
  }

  ghost predicate ListsOk(l: Lists) {
    && ListOk(l.artifacts, MAX_ARTIFACTS, ArtifactOk, ArtifactKeyOf)
    && ListOk(l.units, MAX_UNITS, UnitOk, UnitKeyOf)
    && ListOk(l.ranges, MAX_RANGES, RangeOk, RangeKeyOf)
    && ListOk(l.reports, MAX_REPORTS, ReportOk, ReportRefOf)
    && ListOk(l.transformations, MAX_TRANSFORMATIONS, TransformationOk, TransformationIdOf)
    && ReferencesOk(l)
  }

  lemma CheckedListsIff(artifacts: Result<seq<Artifact>, ManifestError>, units: Result<seq<Unit>, ManifestError>,
                        ranges: Result<seq<Range>, ManifestError>, reports: Result<seq<Report>, ManifestError>,
                        transformations: Result<seq<Transformation>, ManifestError>, l: Lists)
    ensures CheckedLists(artifacts, units, ranges, reports, transformations) == Ok(l) <==>
              && artifacts == Ok(l.artifacts) && units == Ok(l.units) && ranges == Ok(l.ranges)
              && reports == Ok(l.reports) && transformations == Ok(l.transformations) && ReferencesOk(l)
  {
    AllKnownIff(l.artifacts, (a: Artifact) => a.unitKey, l.units);
    AllKnownIff(l.ranges, (r: Range) => r.unitKey, l.units);
    AllKnownIff(l.reports, (r: Report) => r.unitKey, l.units);
    NoProblemIff(l.transformations, l.artifacts);
  }

  lemma ListsMeaning(v: Value, l: Lists)
    requires v.Record?
    ensures ListsOf(v) == Ok(l) <==> SaysLists(v, l) && ListsOk(l)
  {
    ArtifactsMeaning(Get(v, ArtifactsField), l.artifacts);
    UnitsMeaning(Get(v, UnitsField), l.units);
    RangesMeaning(Get(v, RangesField), l.ranges);
    ReportsMeaning(Get(v, ReportsField), l.reports);
    TransformationsMeaning(Get(v, TransformationsField), l.transformations);
    CheckedListsIff(ArtifactsOf(Get(v, ArtifactsField)), UnitsOf(Get(v, UnitsField)), RangesOf(Get(v, RangesField)),
                    ReportsOf(Get(v, ReportsField)), TransformationsOf(Get(v, TransformationsField)), l);
  }

  // ----- the rest of the manifest -----

  predicate SaysIdentity(v: Value, i: Identity)
    requires v.Record?
  {
    && Get(v, SourceField) == Text(i.source)
    && Get(v, ProducerField) == Text(i.producer)
    && Get(v, ProducerVersionField) == Text(i.producerVersion)
    && Get(v, RunIdField) == Text(i.runId)
    && Get(v, AttemptIdField) == Text(i.attemptId)
    && SaysOptional(Get(v, OperationIdField), i.operationId)
    && SaysOptional(Get(v, AcquisitionSessionRefField), i.acquisitionSessionRef)
  }

  predicate IdentityOk(i: Identity) {
    && SourceId(i.source) && IsSafeCode(i.producer) && IsIdent(i.producerVersion) && RunId(i.runId) && IsIdent(i.attemptId)
    && OptionalOk(i.operationId, IsIdent) && OptionalOk(i.acquisitionSessionRef, IsIdent)
  }

  lemma IdentityMeaning(v: Value, i: Identity)
    requires v.Record?
    ensures IdentityOf(v) == Ok(i) <==> SaysIdentity(v, i) && IdentityOk(i)
  {
  }

  predicate SaysVerdict(v: Value, d: Verdict)
    requires v.Record?
  {
    && Get(v, ProviderOutcomeField) == Text(d.providerOutcome)
    && Get(v, CoverageStatusField) == Text(d.coverageStatus)
    && SaysOptional(Get(v, SafeErrorCodeField), d.safeErrorCode)
  }

  /** Complete coverage only with success, and an error code exactly without it. */
  predicate VerdictOk(d: Verdict) {
    && d.providerOutcome in ["success", "partial", "failed"] && d.coverageStatus in ["complete", "partial", "unknown"]
    && OptionalOk(d.safeErrorCode, IsSafeCode)
    && (d.coverageStatus == "complete" ==> d.providerOutcome == "success")
    && (d.providerOutcome == "success" <==> d.safeErrorCode.None?)
  }

  lemma VerdictMeaning(v: Value, d: Verdict)
    requires v.Record?
    ensures VerdictOf(v) == Ok(d) <==> SaysVerdict(v, d) && VerdictOk(d)
  {
  }

  /** An instant in one of the two written forms, which the platform reads and writes back as it is. */
  predicate InstantOk(dates: Dates, s: string) {
    && IsInstantShape(s) && dates.parse(s).Some?
    && dates.iso(dates.parse(s).value) == if |s| == 20 then s[..19] + ".000Z" else s
  }

  predicate SaysWindow(v: Value, w: Window)
    requires v.Record?
  {
    Get(v, StartedAtField) == Text(w.startedAt) && Get(v, CompletedAtField) == Text(w.completedAt)
  }

  predicate WindowOk(dates: Dates, w: Window) {
    && InstantOk(dates, w.startedAt) && InstantOk(dates, w.completedAt)
    && dates.parse(w.startedAt).value <= dates.parse(w.completedAt).value
  }

  lemma WindowMeaning(dates: Dates, v: Value, w: Window)
    requires v.Record?
    ensures WindowOf(dates, v) == Ok(w) <==> SaysWindow(v, w) && WindowOk(dates, w)
  {
  }

  predicate SaysUnitKey(v: Value, unitKey: string) {
    v == Text(unitKey)
  }

  /** No unit keys may be said by leaving them out. */
  ghost predicate SaysUnitKeys(v: Value, unitKeys: seq<string>) {
    if v == Undefined || v == Null then unitKeys == [] else SaysList(v, unitKeys, SaysUnitKey)
  }

  lemma UnitKeysMeaning(v: Value, unitKeys: seq<string>)
    ensures RequestedUnitKeys(v) == Ok(unitKeys) <==>
              SaysUnitKeys(v, unitKeys) && ListOk(unitKeys, MAX_UNITS, IsIdent, (s: string) => s)
  {
    forall w, x ensures Means(UnitKeyText, SaysUnitKey, IsIdent, w, x) {
    }
    var listed := if v.Undefined? || v.Null? then List([]) else v;
    EntriesMeaning(listed, MAX_UNITS, InvalidRequestedScope, UnitKeyText, (s: string) => s, DuplicateRequestedUnitKey,
                   SaysUnitKey, IsIdent, unitKeys);
    if listed == List([]) {
      if SaysList(listed, unitKeys, SaysUnitKey) {
        var order :| multiset(order) == multiset(unitKeys) && SaysInOrder([], order, SaysUnitKey);
        assert |multiset(unitKeys)| == 0;
      }
      assert unitKeys == [] ==> SaysInOrder([], unitKeys, SaysUnitKey);
    }
  }

  ghost predicate SaysScope(v: Value, s: RequestedScope) {
    && OnlyFields(v, {ScopeKindField, StartValueField, EndValueField, UnitKeysField})
    && Get(v, ScopeKindField) == Text(s.scopeKind)
    && SaysNullable(Get(v, StartValueField), s.startValue)
    && SaysNullable(Get(v, EndValueField), s.endValue)
    && SaysUnitKeys(Get(v, UnitKeysField), s.unitKeys)
  }

  ghost predicate ScopeOk(s: RequestedScope) {
    && s.scopeKind in ["full_snapshot", "date_range", "month_range", "unspecified"]
    && OptionalOk(s.startValue, IsNullable) && OptionalOk(s.endValue, IsNullable)
    && ListOk(s.unitKeys, MAX_UNITS, IsIdent, (key: string) => key)
  }

  lemma NullableMeaning(v: Value, e: ManifestError, text: Option<string>)
    ensures NullableValue(v, e) == Ok(text) <==> SaysNullable(v, text) && OptionalOk(text, IsNullable)
  {
  }

  /** The scope apart from its unit keys. */
  predicate SaysKindAndBounds(v: Value, s: RequestedScope)
    requires v.Record?
  {
    && Get(v, ScopeKindField) == Text(s.scopeKind) && IsScopeKind(s.scopeKind)
    && SaysNullable(Get(v, StartValueField), s.startValue) && OptionalOk(s.startValue, IsNullable)
    && SaysNullable(Get(v, EndValueField), s.endValue) && OptionalOk(s.endValue, IsNullable)
  }

  lemma ScopeWithMeaning(v: Value, unitKeys: seq<string>, s: RequestedScope)
    requires v.Record?
    ensures ScopeWith(v, unitKeys) == Ok(s) <==> s.unitKeys == unitKeys && SaysKindAndBounds(v, s)
  {
    NullableMeaning(Get(v, StartValueField), InvalidRequestedScope, s.startValue);
    NullableMeaning(Get(v, EndValueField), InvalidRequestedScope, s.endValue);
  }

  lemma ScopeParts(v: Value, s: RequestedScope)
    ensures ParseRequestedScope(v) == Ok(s) <==>
              && OnlyFields(v, {ScopeKindField, StartValueField, EndValueField, UnitKeysField})
              && RequestedUnitKeys(Get(v, UnitKeysField)) == Ok(s.unitKeys) && SaysKindAndBounds(v, s)
  {
    if v.Record? {
      var unitKeys := RequestedUnitKeys(Get(v, UnitKeysField));
      if unitKeys.Ok? {
        ScopeWithMeaning(v, unitKeys.value, s);
      }
    }
  }

  lemma ScopeMeaning(v: Value, s: RequestedScope)
    ensures ParseRequestedScope(v) == Ok(s) <==> SaysScope(v, s) && ScopeOk(s)
  {
    ScopeParts(v, s);
    if v.Record? {
      UnitKeysMeaning(Get(v, UnitKeysField), s.unitKeys);
    }
  }

  /** The input says the manifest: its version and persistence claim, each property, each list, and nothing more. */
  ghost predicate Says(input: Value, m: TerminalManifest) {
    && input.Record? && (forall f :: f in input.fields ==> IsManifestField(f))
    && Get(input, ManifestVersionField) == Text("terminal-v1")
    && Get(input, PersistenceCompleteField) == Bool(true)
    && SaysIdentity(input, m.identity) && SaysWindow(input, m.window) && SaysVerdict(input, m.verdict)
    && SaysScope(Get(input, RequestedScopeField), m.requestedScope) && SaysLists(input, m.lists)
  }

  ghost predicate LawfulManifest(dates: Dates, m: TerminalManifest) {
    && IdentityOk(m.identity) && WindowOk(dates, m.window) && VerdictOk(m.verdict)
    && ScopeOk(m.requestedScope) && ListsOk(m.lists)
  }

  lemma PreambleMeaning(input: Value)
    ensures PreambleProblem(input).None? <==>
              && input.Record? && (forall f :: f in input.fields ==> IsManifestField(f))
              && Get(input, ManifestVersionField) == Text("terminal-v1")
              && Get(input, PersistenceCompleteField) == Bool(true)
  {
  }

  lemma AssembledIff(window: Result<Window, ManifestError>, lists: Result<Lists, ManifestError>,
                     verdict: Result<Verdict, ManifestError>, identity: Result<Identity, ManifestError>,
                     scope: Result<RequestedScope, ManifestError>, m: TerminalManifest)
    ensures Assembled(window, lists, verdict, identity, scope) == Ok(m) <==>
              && window == Ok(m.window) && lists == Ok(m.lists) && verdict == Ok(m.verdict)
              && identity == Ok(m.identity) && scope == Ok(m.requestedScope)
  {
  }

  /** The parser returns a manifest exactly when it is lawful and the input says it. */
  lemma ParsedIff(dates: Dates, input: Value, m: TerminalManifest)
    ensures Parsed(dates, input) == Ok(m) <==> Says(input, m) && LawfulManifest(dates, m)
  {
    PreambleMeaning(input);
    if input.Record? {
      IdentityMeaning(input, m.identity);
      WindowMeaning(dates, input, m.window);
      VerdictMeaning(input, m.verdict);
      ScopeMeaning(Get(input, RequestedScopeField), m.requestedScope);
      ListsMeaning(input, m.lists);
      PartsIff(dates, input, m);
    }
  }

  lemma PartsIff(dates: Dates, input: Value, m: TerminalManifest)
    requires input.Record?
    ensures Parsed(dates, input) == Ok(m) <==>
              && PreambleProblem(input).None?
              && WindowOf(dates, input) == Ok(m.window) && ListsOf(input) == Ok(m.lists) && VerdictOf(input) == Ok(m.verdict)
              && IdentityOf(input) == Ok(m.identity)
              && ParseRequestedScope(Get(input, RequestedScopeField)) == Ok(m.requestedScope)
  {
    AssembledIff(WindowOf(dates, input), ListsOf(input), VerdictOf(input), IdentityOf(input),
                 ParseRequestedScope(Get(input, RequestedScopeField)), m);
  }

  /** What is refused says no lawful manifest. */
  lemma RefusedIff(dates: Dates, input: Value)
    ensures Parsed(dates, input).Err? <==> !exists m :: Says(input, m) && LawfulManifest(dates, m)
  {
    if Parsed(dates, input).Ok? {
      ParsedIff(dates, input, Parsed(dates, input).value);
    }
    if m :| Says(input, m) && LawfulManifest(dates, m) {
      ParsedIff(dates, input, m);
    }
  }
}
