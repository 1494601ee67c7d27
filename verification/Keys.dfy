/**
  The key layout of the shared bucket: the validators, the builders, and the one parser.
*/
module Keys {
  import opened Texts
  import opened Wrappers

  const OBJECT_PREFIX := "objects/"
  const RUN_PREFIX := "runs/"
  const REPORT_PREFIX := "reports/"
  const PROJECTION_INPUT_PREFIX := "projection-inputs/"
  const TERMINAL_OBJECT_NAME := "terminal.json"

  predicate IsHex(c: char) {
    IsDigit(c) || 'a' <= c <= 'f'
  }

  predicate IsLowerAlnum(c: char) {
    IsDigit(c) || 'a' <= c <= 'z'
  }

  predicate IsAlnum(c: char) {
    IsLowerAlnum(c) || 'A' <= c <= 'Z'
  }

  predicate Sha256Hex(s: string) {
    |s| == 64 && forall i :: 0 <= i < |s| ==> IsHex(s[i])
  }

  predicate SourceId(s: string) {
    1 <= |s| <= 100 && IsLowerAlnum(s[0]) && forall i :: 0 <= i < |s| ==> IsLowerAlnum(s[i]) || s[i] == '-'
  }

  predicate NameChar(c: char) {
    IsAlnum(c) || c == '.' || c == '_' || c == '-'
  }

  /** Run ids, refs and path segments share one shape. */
  predicate Name(s: string) {
    1 <= |s| <= 200 && IsAlnum(s[0]) && forall i :: 0 <= i < |s| ==> NameChar(s[i])
  }

  function Join(parts: seq<string>): string
    requires |parts| >= 1
  {
    if |parts| == 1 then parts[0] else parts[0] + "/" + Join(parts[1..])
  }

  predicate RunId(s: string) {
    Name(s) && s != "." && s != ".."
  }

  predicate RelativePath(s: string) {
    1 <= |s| <= 512 && forall i :: 0 <= i < |Split(s, '/')| ==> RunId(Split(s, '/')[i])
  }

  datatype KeyError = InvalidSha256 | InvalidSource | InvalidRunId | InvalidReportRef | InvalidPath

  function ObjectKey(sha256: string): Result<string, KeyError> {
    if Sha256Hex(sha256) then Ok(OBJECT_PREFIX + sha256[..2] + "/" + sha256) else Err(InvalidSha256)
  }

  function TerminalKey(source: string, runId: string): Result<string, KeyError> {
    if !SourceId(source) then Err(InvalidSource)
    else if !RunId(runId) then Err(InvalidRunId)
    else Ok(RUN_PREFIX + source + "/" + runId + "/" + TERMINAL_OBJECT_NAME)
  }

  function ReportKey(reportRef: string, path: string): Result<string, KeyError> {
    if !RunId(reportRef) then Err(InvalidReportRef)
    else if !RelativePath(path) then Err(InvalidPath)
    else Ok(REPORT_PREFIX + reportRef + "/" + path)
  }

  function ProjectionInputKey(digest: string, path: string): Result<string, KeyError> {
    if !Sha256Hex(digest) then Err(InvalidSha256)
    else if !RelativePath(path) then Err(InvalidPath)
    else Ok(PROJECTION_INPUT_PREFIX + digest + "/" + path)
  }

  datatype KeyParts = KeyParts(source: string, runId: string)

  predicate EndsWith(s: string, suffix: string) {
    |suffix| <= |s| && s[|s| - |suffix|..] == suffix
  }

  /** The characters from `from` up to `to`: none when the bounds cross. */
  function Slice(s: string, from: nat, to: int): string
    requires to <= |s|
  {
    if from <= to then s[from..to] else ""
  }

  function ParseTerminalKey(key: string): Option<KeyParts> {
    if !(RUN_PREFIX <= key) || !EndsWith(key, "/" + TERMINAL_OBJECT_NAME) then None
    else
      var parts := Split(Slice(key, |RUN_PREFIX|, |key| - |TERMINAL_OBJECT_NAME| - 1), '/');
      if |parts| != 2 then None
      else if !SourceId(parts[0]) || !Name(parts[1]) then None
      else if TerminalKey(parts[0], parts[1]) != Ok(key) then None
      else Some(KeyParts(parts[0], parts[1]))
  }

  /** Everything the layout can address. */
  datatype Address =
    | ObjectAt(sha256: string)
    | TerminalAt(source: string, runId: string)
    | ReportAt(reportRef: string, path: string)
    | ProjectionInputAt(digest: string, path: string)

  function KeyOf(a: Address): Result<string, KeyError> {
    match a
    case ObjectAt(sha256) => ObjectKey(sha256)
    case TerminalAt(source, runId) => TerminalKey(source, runId)
    case ReportAt(reportRef, path) => ReportKey(reportRef, path)
    case ProjectionInputAt(digest, path) => ProjectionInputKey(digest, path)
  }

  // ----- splitting -----

  predicate NoSlash(s: string) {
    forall i :: 0 <= i < |s| ==> s[i] != '/'
  }

  lemma {:induction false} SplitFirst(a: string, b: string)
    requires NoSlash(a)
    ensures Split(a + "/" + b, '/') == [a] + Split(b, '/')
  {
    var s := a + "/" + b;
    if a == "" {
      assert s[1..] == b;
    } else {
      assert s[1..] == a[1..] + "/" + b;
      SplitFirst(a[1..], b);
      assert [a[0]] + a[1..] == a;
    }
  }

  lemma {:induction false} SplitLast(a: string)
    requires NoSlash(a)
    ensures Split(a, '/') == [a]
  {
    if a != "" {
      SplitLast(a[1..]);
      assert [a[0]] + a[1..] == a;
    }
  }

  lemma JoinCons(first: string, rest: seq<string>)
    requires |rest| >= 1
    ensures Join([first] + rest) == first + "/" + Join(rest)
  {
    assert ([first] + rest)[1..] == rest;
  }

  lemma PrependTwice(c: char, a: string, b: string)
    ensures ([c] + a) + "/" + b == [c] + (a + "/" + b)
  {
  }

  lemma JoinPrepends(c: char, parts: seq<string>)
    requires |parts| >= 1
    ensures Join([[c] + parts[0]] + parts[1..]) == [c] + Join(parts)
  {
    if |parts| > 1 {
      JoinCons([c] + parts[0], parts[1..]);
      PrependTwice(c, parts[0], Join(parts[1..]));
    }
  }

  /** Splitting loses nothing. */
  lemma {:induction false} JoinSplit(s: string)
    ensures Join(Split(s, '/')) == s
  {
    if s != "" {
      var rest := Split(s[1..], '/');
      JoinSplit(s[1..]);
      if s[0] == '/' {
        assert ([""] + rest)[1..] == rest;
        assert "" + "/" + Join(rest) == s;
      } else {
        JoinPrepends(s[0], rest);
        assert [s[0]] + s[1..] == s;
      }
    }
  }

  /** The segments an address is written with. */
  function Segments(a: Address): (parts: seq<string>) {
    match a
    case ObjectAt(sha256) => ["objects", if |sha256| < 2 then "" else sha256[..2], sha256]
    case TerminalAt(source, runId) => ["runs", source, runId, TERMINAL_OBJECT_NAME]
    case ReportAt(reportRef, path) => ["reports", reportRef] + Split(path, '/')
    case ProjectionInputAt(digest, path) => ["projection-inputs", digest] + Split(path, '/')
  }

  lemma SplitTwo(a: string, b: string)
    requires NoSlash(a) && NoSlash(b)
    ensures Split(a + "/" + b, '/') == [a, b]
  {
    SplitFirst(a, b);
    SplitLast(b);
  }

  lemma SplitThree(a: string, b: string, c: string)
    requires NoSlash(a) && NoSlash(b)
    ensures Split(a + "/" + b + "/" + c, '/') == [a, b] + Split(c, '/')
  {
    assert a + "/" + b + "/" + c == a + "/" + (b + "/" + c);
    SplitFirst(a, b + "/" + c);
    SplitFirst(b, c);
  }

  lemma SplitOfObjectKey(sha256: string)
    requires Sha256Hex(sha256)
    ensures Split(ObjectKey(sha256).value, '/') == Segments(ObjectAt(sha256))
  {
    assert forall i :: 0 <= i < |sha256| ==> IsHex(sha256[i]);
    SplitThree("objects", sha256[..2], sha256);
    SplitLast(sha256);
    assert OBJECT_PREFIX + sha256[..2] + "/" + sha256 == "objects" + "/" + sha256[..2] + "/" + sha256;
  }

  lemma SplitOfTerminalKey(source: string, runId: string)
    requires SourceId(source) && RunId(runId)
    ensures Split(TerminalKey(source, runId).value, '/') == Segments(TerminalAt(source, runId))
  {
    var tail := runId + "/" + TERMINAL_OBJECT_NAME;
    SplitTwo(runId, TERMINAL_OBJECT_NAME);
    SplitThree("runs", source, tail);
    var key := TerminalKey(source, runId).value;
    assert key == RUN_PREFIX + source + "/" + tail;
    assert RUN_PREFIX == "runs" + "/";
    assert key == "runs" + "/" + source + "/" + tail;
  }

  /** Splitting a key gives back the segments it was written with. */
  lemma SplitOfKey(a: Address)
    requires KeyOf(a).Ok?
    ensures Split(KeyOf(a).value, '/') == Segments(a)
  {
    match a
    case ObjectAt(sha256) =>
      SplitOfObjectKey(sha256);
    case TerminalAt(source, runId) =>
      SplitOfTerminalKey(source, runId);
    case ReportAt(reportRef, path) =>
      SplitThree("reports", reportRef, path);
      assert REPORT_PREFIX + reportRef + "/" + path == "reports" + "/" + reportRef + "/" + path;
    case ProjectionInputAt(digest, path) =>
      assert forall i :: 0 <= i < |digest| ==> IsHex(digest[i]);
      SplitThree("projection-inputs", digest, path);
      assert PROJECTION_INPUT_PREFIX + digest + "/" + path == "projection-inputs" + "/" + digest + "/" + path;
  }

  // ----- what the layout promises -----

  /** Terminal, object, report and projection keys are pairwise disjoint, and each is injective in its arguments. */
  lemma KeysAreDistinct(a: Address, b: Address)
    requires KeyOf(a).Ok? && KeyOf(b).Ok?
    ensures KeyOf(a) == KeyOf(b) <==> a == b
  {
    if KeyOf(a) == KeyOf(b) {
      SplitOfKey(a);
      SplitOfKey(b);
      var x, y := Segments(a), Segments(b);
      assert x == y && x[0] == y[0] && x[1] == y[1];
      assert |"objects"| != |"reports"| || "objects"[0] != "reports"[0];
      match a
      case ObjectAt(_) =>
        assert x[2] == y[2];
      case TerminalAt(_, _) =>
        assert x[2] == y[2];
      case ReportAt(_, path) =>
        assert x[2..] == Split(path, '/');
        JoinSplit(path);
        if b.ReportAt? {
          assert y[2..] == Split(b.path, '/');
          JoinSplit(b.path);
        }
      case ProjectionInputAt(_, path) =>
        assert x[2..] == Split(path, '/');
        JoinSplit(path);
        if b.ProjectionInputAt? {
          assert y[2..] == Split(b.path, '/');
          JoinSplit(b.path);
        }
    }
  }

  /**
    The parser is the exact inverse of the builder: it answers a pair when, and only when,
    the builder makes the key of that pair, so it answers nothing on every other text.
  */
  lemma ParseInvertsTerminalKey(key: string, parts: KeyParts)
    ensures ParseTerminalKey(key) == Some(parts) <==> TerminalKey(parts.source, parts.runId) == Ok(key)
  {
    if TerminalKey(parts.source, parts.runId) == Ok(key) {
      var middle := parts.source + "/" + parts.runId;
      assert key == RUN_PREFIX + middle + ("/" + TERMINAL_OBJECT_NAME);
      assert Slice(key, |RUN_PREFIX|, |key| - |TERMINAL_OBJECT_NAME| - 1) == middle;
      assert EndsWith(key, "/" + TERMINAL_OBJECT_NAME);
      SplitFirst(parts.source, parts.runId);
      SplitLast(parts.runId);
    }
  }

  /** The one parser tells the four kinds of key apart. */
  lemma ParsesTerminalsOnly(a: Address)
    requires KeyOf(a).Ok?
    ensures ParseTerminalKey(KeyOf(a).value).Some? <==> a.TerminalAt?
  {
    var key := KeyOf(a).value;
    if a.TerminalAt? {
      ParseInvertsTerminalKey(key, KeyParts(a.source, a.runId));
    } else if ParseTerminalKey(key).Some? {
      var parts := ParseTerminalKey(key).value;
      ParseInvertsTerminalKey(key, parts);
      KeysAreDistinct(a, TerminalAt(parts.source, parts.runId));
    }
  }

  predicate AllSafe(parts: seq<string>) {
    forall i :: 0 <= i < |parts| ==> RunId(parts[i])
  }

  lemma LayoutWordsAreSafe()
    ensures RunId("objects") && RunId("runs") && RunId("reports") && RunId("projection-inputs")
    ensures RunId(TERMINAL_OBJECT_NAME)
  {
  }

  lemma DigestIsSafe(sha256: string)
    requires Sha256Hex(sha256)
    ensures RunId(sha256) && RunId(sha256[..2])
  {
    assert forall i :: 0 <= i < |sha256| ==> IsHex(sha256[i]);
    assert |sha256[..2]| == 2;
  }

  lemma PathIsSafe(first: string, second: string, path: string)
    requires RunId(first) && RunId(second) && RelativePath(path)
    ensures AllSafe([first, second] + Split(path, '/'))
  {
    var parts := [first, second] + Split(path, '/');
    assert forall i :: 2 <= i < |parts| ==> parts[i] == Split(path, '/')[i - 2];
  }

  lemma SegmentsAreSafe(a: Address)
    requires KeyOf(a).Ok?
    ensures AllSafe(Segments(a))
  {
    LayoutWordsAreSafe();
    match a
    case ObjectAt(sha256) => DigestIsSafe(sha256);
    case TerminalAt(source, _) => assert RunId(source);
    case ReportAt(reportRef, path) => PathIsSafe("reports", reportRef, path);
    case ProjectionInputAt(digest, path) =>
      DigestIsSafe(digest);
      PathIsSafe("projection-inputs", digest, path);
  }

  /** A key has no empty, `.` or `..` segment, no character outside the safe set, and fits a storage reference. */
  lemma KeysAreSafe(a: Address)
    requires KeyOf(a).Ok?
    ensures AllSafe(Split(KeyOf(a).value, '/'))
    ensures 1 <= |KeyOf(a).value| <= 1024
  {
    SplitOfKey(a);
    SegmentsAreSafe(a);
  }
}
