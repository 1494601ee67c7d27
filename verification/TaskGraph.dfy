/**
  The task-graph checks: wildcard dependency references, the dependency closure
  computed with a work list, and the violations decided from it.
*/
module TaskGraph {
  import opened Wrappers

  datatype Task = Task(name: string, depends: seq<string>, dependsPost: seq<string>)

  type Tasks = map<string, Task>

  // ----- references -----

  /** A piece of a reference's pattern: a character, `*`, `/...`, and what follows the slash of the last. */
  datatype Piece = Literal(c: char) | Star | Ellipsis | Colonless

  predicate LineEnd(c: char) {
    c == '\n' || c == '\r' || c == '\U{2028}' || c == '\U{2029}'
  }

  function Pieces(pattern: string): seq<Piece> {
    if pattern == "" then []
    else if "/..." <= pattern then [Ellipsis] + Pieces(pattern[4..])
    else [if pattern[0] == '*' then Star else Literal(pattern[0])] + Pieces(pattern[1..])
  }

  /** Whether the whole name matches: `*` is any text of one line, `/...` an optional slash and text without a colon. */
  predicate Matches(pieces: seq<Piece>, name: string)
    decreases |name|, |pieces|
  {
    if pieces == [] then name == ""
    else match pieces[0]
      case Literal(c) => name != "" && name[0] == c && Matches(pieces[1..], name[1..])
      case Star => Matches(pieces[1..], name) || (name != "" && !LineEnd(name[0]) && Matches(pieces, name[1..]))
      case Colonless => Matches(pieces[1..], name) || (name != "" && name[0] != ':' && Matches(pieces, name[1..]))
      case Ellipsis =>
        Matches(pieces[1..], name)
        || (|name| >= 2 && name[0] == '/' && name[1] != ':' && Matches([Colonless] + pieces[1..], name[2..]))
  }

  /** `owner.slice(0, owner.indexOf(":"))`, which without a colon drops the last character. */
  function Namespace(owner: string): string {
    if ':' in owner then UpToColon(owner) else if owner == "" then "" else owner[..|owner| - 1]
  }

  function UpToColon(owner: string): string {
    if owner == "" || owner[0] == ':' then "" else [owner[0]] + UpToColon(owner[1..])
  }

  function Absolute(reference: string, owner: string): string {
    if "//" <= reference then reference
    else Namespace(owner) + ":" + (if ":" <= reference then reference[1..] else reference)
  }

  /** The task names a dependency reference stands for. */
  predicate RefersTo(reference: string, owner: string, name: string) {
    Matches(Pieces(Absolute(reference, owner)), name)
  }

  /** A reference without wildcards stands for the one name it spells. */
  lemma {:induction false} PlainPatternIsItself(pattern: string, name: string)
    requires '*' !in pattern && forall i :: 0 <= i <= |pattern| ==> !("/..." <= pattern[i..])
    ensures Matches(Pieces(pattern), name) <==> name == pattern
  {
    if pattern != "" {
      assert pattern[0..] == pattern;
      forall i | 0 <= i <= |pattern| - 1 ensures !("/..." <= pattern[1..][i..]) {
        assert pattern[1..][i..] == pattern[i + 1..];
      }
      if name != "" {
        PlainPatternIsItself(pattern[1..], name[1..]);
        assert pattern == [pattern[0]] + pattern[1..] && name == [name[0]] + name[1..];
      }
    }
  }

  method DependencyNames(reference: string, owner: string, names: seq<string>) returns (r: seq<string>)
    ensures forall n :: n in r <==> n in names && RefersTo(reference, owner, n)
  {
    var pieces := Pieces(Absolute(reference, owner));
    r := [];
    for i := 0 to |names|
      invariant forall n :: n in r <==> n in names[..i] && Matches(pieces, n)
    {
      if Matches(pieces, names[i]) {
        r := r + [names[i]];
      }
    }
  }

  // ----- the closure -----

  /** `to` is a task that `from`, a task itself, names in its normal or post dependencies. */
  predicate Edge(tasks: Tasks, from: string, to: string) {
    from in tasks && to in tasks && Named(tasks[from].depends + tasks[from].dependsPost, from, to)
  }

  predicate Named(references: seq<string>, owner: string, name: string) {
    exists reference :: reference in references && RefersTo(reference, owner, name)
  }

  lemma NamedNext(references: seq<string>, i: nat, owner: string)
    requires i < |references|
    ensures forall n :: Named(references[..i + 1], owner, n) <==>
                          Named(references[..i], owner, n) || RefersTo(references[i], owner, n)
  {
    assert references[..i + 1] == references[..i] + [references[i]];
  }

  ghost predicate IsPath(tasks: Tasks, path: seq<string>, from: string, to: string) {
    && |path| > 0 && path[0] == from && path[|path| - 1] == to
    && forall i :: 0 <= i < |path| - 1 ==> Edge(tasks, path[i], path[i + 1])
  }

  ghost predicate Reaches(tasks: Tasks, from: string, to: string) {
    exists path :: IsPath(tasks, path, from, to)
  }

  ghost predicate Closed(tasks: Tasks, s: set<string>) {
    forall x, y :: x in s && Edge(tasks, x, y) ==> y in s
  }

  lemma ReachesItself(tasks: Tasks, from: string)
    ensures Reaches(tasks, from, from)
  {
    assert IsPath(tasks, [from], from, from);
  }

  lemma ReachesNext(tasks: Tasks, from: string, x: string, y: string)
    requires Reaches(tasks, from, x) && Edge(tasks, x, y)
    ensures Reaches(tasks, from, y)
  {
    var path :| IsPath(tasks, path, from, x);
    assert IsPath(tasks, path + [y], from, y);
  }

  /** What is reached lies in every closed set that holds the start. */
  lemma {:induction false} PathStaysInside(tasks: Tasks, s: set<string>, path: seq<string>, from: string, to: string)
    requires Closed(tasks, s) && from in s && IsPath(tasks, path, from, to)
    ensures to in s
    decreases |path|
  {
    if |path| > 1 {
      var shorter := path[..|path| - 1];
      assert IsPath(tasks, shorter, from, shorter[|shorter| - 1]);
      PathStaysInside(tasks, s, shorter, from, shorter[|shorter| - 1]);
      assert Edge(tasks, path[|path| - 2], path[|path| - 1]);
    }
  }

  /** The set is closed, holds the start, and lies in every other set that does. */
  ghost predicate IsLeastClosed(tasks: Tasks, from: string, s: set<string>) {
    && from in s && Closed(tasks, s)
    && forall t :: from in t && Closed(tasks, t) ==> s <= t
  }

  lemma ReachableIsLeastClosed(tasks: Tasks, from: string, s: set<string>)
    requires forall x :: x in s <==> Reaches(tasks, from, x)
    ensures IsLeastClosed(tasks, from, s)
  {
    ReachesItself(tasks, from);
    forall x, y | x in s && Edge(tasks, x, y) ensures y in s {
      ReachesNext(tasks, from, x, y);
    }
    forall t, x | from in t && Closed(tasks, t) && x in s ensures x in t {
      var path :| IsPath(tasks, path, from, x);
      PathStaysInside(tasks, t, path, from, x);
    }
  }

  method KeysOf(tasks: Tasks) returns (names: seq<string>)
    ensures forall n :: n in names <==> n in tasks
  {
    names := [];
    var rest := tasks.Keys;
    while rest != {}
      invariant rest <= tasks.Keys && forall n :: n in names <==> n in tasks && n !in rest
    {
      var n := Pick(rest);
      names, rest := names + [n], rest - {n};
    }
  }

  /** Every task `current` names, wildcards expanded. */
  method Dependencies(tasks: Tasks, names: seq<string>, current: string) returns (r: seq<string>)
    requires forall n :: n in names <==> n in tasks
    ensures forall n :: n in r <==> Edge(tasks, current, n)
  {
    r := [];
    if current !in tasks {
      return;
    }
    var references := tasks[current].depends + tasks[current].dependsPost;
    for i := 0 to |references|
      invariant forall n :: n in r <==> n in tasks && Named(references[..i], current, n)
    {
      var more := DependencyNames(references[i], current, names);
      NamedNext(references, i, current);
      r := r + more;
    }
    assert references[..|references|] == references;
  }

  /** Exactly the tasks a path of dependencies reaches, the start included. */
  method DependencyClosure(name: string, tasks: Tasks) returns (seen: set<string>)
    ensures forall x :: x in seen <==> Reaches(tasks, name, x)
    ensures IsLeastClosed(tasks, name, seen)
  {
    seen := {};
    var names := KeysOf(tasks);
    var queue := [name];
    ReachesItself(tasks, name);
    while |queue| > 0
      invariant seen <= {name} + tasks.Keys
      invariant forall x :: x in queue ==> x in {name} + tasks.Keys
      invariant name in seen || name in queue
      invariant forall x, y :: x in seen && Edge(tasks, x, y) ==> y in seen || y in queue
      invariant forall x :: x in seen || x in queue ==> Reaches(tasks, name, x)
      decreases ({name} + tasks.Keys) - seen, |queue|
    {
      var current := queue[|queue| - 1];
      queue := queue[..|queue| - 1];
      if current in seen {
        continue;
      }
      var more := Dependencies(tasks, names, current);
      forall y | y in more ensures Reaches(tasks, name, y) {
        ReachesNext(tasks, name, current, y);
      }
      seen := seen + {current};
      queue := queue + more;
    }
    forall x | Reaches(tasks, name, x) ensures x in seen {
      var path :| IsPath(tasks, path, name, x);
      PathStaysInside(tasks, seen, path, name, x);
    }
    ReachableIsLeastClosed(tasks, name, seen);
  }

  // ----- the checks that decide from it -----

  /** The records by name; of records that share a name the last one counts. */
  function TasksByName(records: seq<Task>): Tasks {
    if records == [] then map[]
    else
      var last := records[|records| - 1];
      TasksByName(records[..|records| - 1])[last.name := last]
  }

  lemma {:induction false} LastOfNameCounts(records: seq<Task>, name: string)
    ensures name in TasksByName(records) <==> exists i :: 0 <= i < |records| && records[i].name == name
    ensures name in TasksByName(records) ==>
              exists i :: 0 <= i < |records| && records[i] == TasksByName(records)[name] && records[i].name == name
                          && forall j :: i < j < |records| ==> records[j].name != name
  {
    if records != [] {
      var n := |records| - 1;
      LastOfNameCounts(records[..n], name);
      if records[n].name != name && name in TasksByName(records) {
        var i :| 0 <= i < n && records[..n][i] == TasksByName(records[..n])[name] && records[..n][i].name == name
                 && forall j :: i < j < n ==> records[..n][j].name != name;
        assert records[i] == records[..n][i];
        forall j | i < j < |records| ensures records[j].name != name {
          assert j < n ==> records[j] == records[..n][j];
        }
      }
    }
  }

  method ByName(records: seq<Task>) returns (tasks: Tasks)
    ensures tasks == TasksByName(records)
  {
    tasks := map[];
    for i := 0 to |records|
      invariant tasks == TasksByName(records[..i])
    {
      assert records[..i + 1][..i] == records[..i];
      tasks := tasks[records[i].name := records[i]];
    }
    assert records[..|records|] == records;
  }

  /** `/^\/\/.+:dry-run$/` */
  predicate IsDryRun(name: string) {
    && |name| > 10 && name[..2] == "//" && name[|name| - 8..] == ":dry-run"
    && forall i :: 2 <= i < |name| - 8 ==> !LineEnd(name[i])
  }

  const CHECKS := "//:checks"
  const RECURSING := ["//:check", "//:verify", "//:fix"]

  function CiTask(directory: string): string {
    "//" + directory + ":ci"
  }

  predicate Required(directories: seq<string>, records: seq<Task>, name: string) {
    || name == "//:ci:root"
    || (exists i :: 0 <= i < |directories| && name == CiTask(directories[i]))
    || (exists i :: 0 <= i < |records| && name == records[i].name && IsDryRun(name))
  }

  datatype Violation =
    | Unreached(name: string)
    | Recursing(name: string)
    | NoProducer(path: string, producedBy: string)
    | MissingEdge(task: string, workspace: string, path: string, producedBy: string)

  method RequiredNames(directories: seq<string>, records: seq<Task>) returns (names: seq<string>)
    ensures forall n :: n in names <==> Required(directories, records, n)
  {
    names := ["//:ci:root"];
    for i := 0 to |directories|
      invariant forall n :: n in names <==> n == "//:ci:root" || exists j :: 0 <= j < i && n == CiTask(directories[j])
    {
      names := names + [CiTask(directories[i])];
    }
    for i := 0 to |records|
      invariant forall n :: n in names <==>
        || n == "//:ci:root" || (exists j :: 0 <= j < |directories| && n == CiTask(directories[j]))
        || (exists j :: 0 <= j < i && n == records[j].name && IsDryRun(n))
    {
      if IsDryRun(records[i].name) {
        names := names + [records[i].name];
      }
    }
  }

  /** One violation for each required task the aggregate does not reach, and for each recursing task it does. */
  method AggregateCheckViolations(directories: seq<string>, records: seq<Task>) returns (errors: seq<Violation>)
    ensures forall v :: v in errors <==>
      || (v.Unreached? && Required(directories, records, v.name) && !Reaches(TasksByName(records), CHECKS, v.name))
      || (v.Recursing? && v.name in RECURSING && Reaches(TasksByName(records), CHECKS, v.name))
  {
    var tasks := ByName(records);
    var closure := DependencyClosure(CHECKS, tasks);
    var required := RequiredNames(directories, records);
    errors := [];
    for i := 0 to |required|
      invariant forall v :: v in errors <==> v.Unreached? && v.name in required[..i] && v.name !in closure
    {
      if required[i] !in closure {
        errors := errors + [Unreached(required[i])];
      }
    }
    assert required[..|required|] == required;
    for i := 0 to |RECURSING|
      invariant forall v :: v in errors <==>
        || (v.Unreached? && v.name in required && v.name !in closure)
        || (v.Recursing? && v.name in RECURSING[..i] && v.name in closure)
    {
      if RECURSING[i] in closure {
        errors := errors + [Recursing(RECURSING[i])];
      }
    }
    assert RECURSING[..|RECURSING|] == RECURSING;
  }

  datatype GeneratedFile = GeneratedFile(path: string, producedBy: string)

  datatype SourceImports = SourceImports(file: string, imports: seq<string>)

  const GENERATED_INPUT_TASKS := ["typecheck", "test", "dry-run"]

  predicate InWorkspace(file: string, directory: string) {
    file == directory || directory + "/" <= file
  }

  /** The first workspace that holds the file. */
  function WorkspaceOf(file: string, directories: seq<string>): (r: Option<string>)
    ensures r.None? <==> forall i :: 0 <= i < |directories| ==> !InWorkspace(file, directories[i])
    ensures r.Some? ==> r.value in directories && InWorkspace(file, r.value)
  {
    if directories == [] then None
    else if InWorkspace(file, directories[0]) then Some(directories[0])
    else WorkspaceOf(file, directories[1..])
  }

  predicate NamesGenerated(resolved: string, path: string) {
    resolved == path || resolved + "." <= path
  }

  predicate Imports(source: SourceImports, file: GeneratedFile) {
    exists i :: 0 <= i < |source.imports| && NamesGenerated(source.imports[i], file.path)
  }

  /** Some module of the workspace imports the generated file. */
  predicate ImportedIn(sources: seq<SourceImports>, directories: seq<string>, workspace: string, file: GeneratedFile) {
    exists i :: 0 <= i < |sources| && WorkspaceOf(sources[i].file, directories) == Some(workspace) && Imports(sources[i], file)
  }

  type ImportMap = map<string, seq<GeneratedFile>>

  predicate Listed(importedBy: ImportMap, workspace: string, file: GeneratedFile) {
    workspace in importedBy && file in importedBy[workspace]
  }

  method AddImports(importedBy: ImportMap, workspace: string, source: SourceImports, generated: seq<GeneratedFile>)
    returns (r: ImportMap)
    ensures forall w, f :: Listed(r, w, f) <==>
              Listed(importedBy, w, f) || (w == workspace && f in generated && Imports(source, f))
  {
    r := importedBy;
    for i := 0 to |generated|
      invariant forall w, f :: Listed(r, w, f) <==>
                  Listed(importedBy, w, f) || (w == workspace && f in generated[..i] && Imports(source, f))
    {
      var file := generated[i];
      assert generated[..i + 1] == generated[..i] + [file];
      assert forall f :: f in generated[..i + 1] <==> f in generated[..i] || f == file;
      if Imports(source, file) {
        var listed := if workspace in r then r[workspace] else [];
        if file !in listed {
          ghost var before := r;
          r := r[workspace := listed + [file]];
          assert forall w, f :: Listed(r, w, f) <==> Listed(before, w, f) || (w == workspace && f == file);
        }
      }
    }
    assert generated[..|generated|] == generated;
  }

  method ImportsByWorkspace(generated: seq<GeneratedFile>, sources: seq<SourceImports>, directories: seq<string>)
    returns (importedBy: ImportMap)
    ensures forall w, f :: Listed(importedBy, w, f) <==> f in generated && ImportedIn(sources, directories, w, f)
  {
    importedBy := map[];
    for i := 0 to |sources|
      invariant forall w, f :: Listed(importedBy, w, f) <==> f in generated && ImportedIn(sources[..i], directories, w, f)
    {
      var workspace := WorkspaceOf(sources[i].file, directories);
      ImportedInNext(sources, i, directories);
      if workspace.Some? {
        importedBy := AddImports(importedBy, workspace.value, sources[i], generated);
      }
    }
    assert sources[..|sources|] == sources;
  }

  lemma ImportedInNext(sources: seq<SourceImports>, i: nat, directories: seq<string>)
    requires i < |sources|
    ensures forall w, f :: ImportedIn(sources[..i + 1], directories, w, f) <==>
      || ImportedIn(sources[..i], directories, w, f)
      || (WorkspaceOf(sources[i].file, directories) == Some(w) && Imports(sources[i], f))
  {
    forall w, f ensures ImportedIn(sources[..i + 1], directories, w, f) <==>
      || ImportedIn(sources[..i], directories, w, f)
      || (WorkspaceOf(sources[i].file, directories) == Some(w) && Imports(sources[i], f))
    {
      assert sources[..i + 1][i] == sources[i];
      if k :| 0 <= k < i && WorkspaceOf(sources[k].file, directories) == Some(w) && Imports(sources[k], f) {
        assert sources[..i + 1][k] == sources[k] && sources[..i][k] == sources[k];
      }
    }
  }

  function InputTask(workspace: string, kind: string): string {
    "//" + workspace + ":" + kind
  }

  /** A task of a workspace with a native `ci` task should reach the producer of what the workspace imports, and does not. */
  ghost predicate EdgeMissing(tasks: Tasks, workspace: string, file: GeneratedFile, kind: string) {
    && CiTask(workspace) in tasks && file.producedBy in tasks
    && InputTask(workspace, kind) in tasks
    && !Reaches(tasks, InputTask(workspace, kind), file.producedBy)
  }

  /**
    In every workspace with a native `ci` task, every existing typecheck, test and
    dry-run task reaches the producer of each generated file the workspace imports.
   */
  ghost predicate EveryInputReached(generated: seq<GeneratedFile>, sources: seq<SourceImports>,
                                    directories: seq<string>, tasks: Tasks) {
    forall w, f, kind ::
      (&& f in generated && ImportedIn(sources, directories, w, f) && kind in GENERATED_INPUT_TASKS
       && CiTask(w) in tasks && InputTask(w, kind) in tasks) ==> Reaches(tasks, InputTask(w, kind), f.producedBy)
  }

  /** A violation the generated files of one workspace deserve: a missing edge from one of its input tasks. */
  ghost predicate IsMissingEdge(tasks: Tasks, v: Violation, workspace: string, file: GeneratedFile, kind: string) {
    && v == MissingEdge(InputTask(workspace, kind), workspace, file.path, file.producedBy)
    && kind in GENERATED_INPUT_TASKS && EdgeMissing(tasks, workspace, file, kind)
  }

  ghost predicate EdgeOfFile(tasks: Tasks, v: Violation, workspace: string, file: GeneratedFile) {
    exists kind :: IsMissingEdge(tasks, v, workspace, file, kind)
  }

  ghost predicate EdgeOfFiles(tasks: Tasks, v: Violation, workspace: string, files: seq<GeneratedFile>) {
    exists f :: f in files && EdgeOfFile(tasks, v, workspace, f)
  }

  method MissingEdges(tasks: Tasks, workspace: string, file: GeneratedFile) returns (errors: seq<Violation>)
    requires CiTask(workspace) in tasks && file.producedBy in tasks
    ensures forall v :: v in errors <==> EdgeOfFile(tasks, v, workspace, file)
  {
    errors := [];
    for k := 0 to |GENERATED_INPUT_TASKS|
      invariant forall v :: v in errors <==>
                  exists j :: 0 <= j < k && IsMissingEdge(tasks, v, workspace, file, GENERATED_INPUT_TASKS[j])
    {
      var name := InputTask(workspace, GENERATED_INPUT_TASKS[k]);
      if name in tasks {
        var closure := DependencyClosure(name, tasks);
        if file.producedBy !in closure {
          errors := errors + [MissingEdge(name, workspace, file.path, file.producedBy)];
        }
      }
    }
    forall v ensures v in errors <==> EdgeOfFile(tasks, v, workspace, file) {
      if kind :| IsMissingEdge(tasks, v, workspace, file, kind) {
        var j :| 0 <= j < |GENERATED_INPUT_TASKS| && GENERATED_INPUT_TASKS[j] == kind;
      }
    }
  }

  method WorkspaceViolations(tasks: Tasks, workspace: string, files: seq<GeneratedFile>) returns (errors: seq<Violation>)
    ensures forall v :: v in errors <==> EdgeOfFiles(tasks, v, workspace, files)
  {
    errors := [];
    if CiTask(workspace) !in tasks {
      return;
    }
    for i := 0 to |files|
      invariant forall v :: v in errors <==> EdgeOfFiles(tasks, v, workspace, files[..i])
    {
      assert files[..i + 1] == files[..i] + [files[i]];
      assert forall f :: f in files[..i + 1] <==> f in files[..i] || f == files[i];
      if files[i].producedBy in tasks {
        var more := MissingEdges(tasks, workspace, files[i]);
        errors := errors + more;
      }
    }
    assert files[..|files|] == files;
  }

  /** What the check reports: a declared producer that does not exist, or an input task that does not reach it. */
  ghost predicate IsInputViolation(generated: seq<GeneratedFile>, sources: seq<SourceImports>, directories: seq<string>,
                                   tasks: Tasks, v: Violation)
  {
    || ProducerMissing(generated, tasks, v)
    || exists w, f :: f in generated && ImportedIn(sources, directories, w, f) && EdgeOfFile(tasks, v, w, f)
  }

  predicate ProducerMissing(generated: seq<GeneratedFile>, tasks: Tasks, v: Violation) {
    exists f :: f in generated && v == NoProducer(f.path, f.producedBy) && f.producedBy !in tasks
  }

  /** Exactly the violations there are; none exactly when every declared producer exists and every input is reached. */
  method GeneratedInputViolations(generated: seq<GeneratedFile>, sources: seq<SourceImports>,
                                  directories: seq<string>, records: seq<Task>)
    returns (errors: seq<Violation>)
    ensures forall v :: v in errors <==> IsInputViolation(generated, sources, directories, TasksByName(records), v)
    ensures errors == [] <==>
      && (forall f :: f in generated ==> f.producedBy in TasksByName(records))
      && EveryInputReached(generated, sources, directories, TasksByName(records))
  {
    errors := [];
    var tasks := ByName(records);
    for i := 0 to |generated|
      invariant forall v :: v in errors <==> ProducerMissing(generated[..i], tasks, v)
    {
      assert forall f :: f in generated[..i + 1] <==> f in generated[..i] || f == generated[i];
      if generated[i].producedBy !in tasks {
        errors := errors + [NoProducer(generated[i].path, generated[i].producedBy)];
      }
    }
    assert generated[..|generated|] == generated;
    var importedBy := ImportsByWorkspace(generated, sources, directories);
    var rest := importedBy.Keys;
    while rest != {}
      invariant rest <= importedBy.Keys
      invariant forall v :: v in errors <==> ProducerMissing(generated, tasks, v) || EdgeOfMap(tasks, v, importedBy, rest)
    {
      var workspace := Pick(rest);
      rest := rest - {workspace};
      var more := WorkspaceViolations(tasks, workspace, importedBy[workspace]);
      errors := errors + more;
    }
    forall v ensures v in errors <==> IsInputViolation(generated, sources, directories, tasks, v) {
      EdgesOfMap(generated, sources, directories, tasks, importedBy, v);
    }
    NoneWhenAllReached(generated, sources, directories, tasks, errors);
  }

  /** An edge missing in a workspace of the map that is not among those left to look at. */
  ghost predicate EdgeOfMap(tasks: Tasks, v: Violation, importedBy: ImportMap, rest: set<string>) {
    exists w :: w in importedBy && w !in rest && EdgeOfFiles(tasks, v, w, importedBy[w])
  }

  lemma EdgesOfMap(generated: seq<GeneratedFile>, sources: seq<SourceImports>, directories: seq<string>,
                   tasks: Tasks, importedBy: ImportMap, v: Violation)
    requires forall w, f :: Listed(importedBy, w, f) <==> f in generated && ImportedIn(sources, directories, w, f)
    ensures EdgeOfMap(tasks, v, importedBy, {}) <==>
      exists w, f :: f in generated && ImportedIn(sources, directories, w, f) && EdgeOfFile(tasks, v, w, f)
  {
    if EdgeOfMap(tasks, v, importedBy, {}) {
      var w :| w in importedBy && EdgeOfFiles(tasks, v, w, importedBy[w]);
      var f :| f in importedBy[w] && EdgeOfFile(tasks, v, w, f);
      assert Listed(importedBy, w, f);
    }
    if w, f :| f in generated && ImportedIn(sources, directories, w, f) && EdgeOfFile(tasks, v, w, f) {
      assert Listed(importedBy, w, f);
      assert EdgeOfFiles(tasks, v, w, importedBy[w]);
    }
  }

  lemma NoneWhenAllReached(generated: seq<GeneratedFile>, sources: seq<SourceImports>, directories: seq<string>,
                           tasks: Tasks, errors: seq<Violation>)
    requires forall v :: v in errors <==> IsInputViolation(generated, sources, directories, tasks, v)
    ensures errors == [] <==>
      (forall f :: f in generated ==> f.producedBy in tasks) && EveryInputReached(generated, sources, directories, tasks)
  {
    if errors != [] {
      var v := errors[0];
      assert v in errors;
      if w, f :| f in generated && ImportedIn(sources, directories, w, f) && EdgeOfFile(tasks, v, w, f) {
        var kind :| IsMissingEdge(tasks, v, w, f, kind);
        assert !Reaches(tasks, InputTask(w, kind), f.producedBy);
      }
    } else {
      forall f | f in generated ensures f.producedBy in tasks {
        assert NoProducer(f.path, f.producedBy) !in errors;
        assert !ProducerMissing(generated, tasks, NoProducer(f.path, f.producedBy));
      }
      forall w, f, kind | f in generated && ImportedIn(sources, directories, w, f) && kind in GENERATED_INPUT_TASKS
                          && CiTask(w) in tasks && InputTask(w, kind) in tasks
        ensures Reaches(tasks, InputTask(w, kind), f.producedBy)
      {
        var v := MissingEdge(InputTask(w, kind), w, f.path, f.producedBy);
        assert v !in errors;
        assert !IsMissingEdge(tasks, v, w, f, kind);
      }
    }
  }
}
