/**
  What the sweep's summary means: its counters count the rows that the sweep adds to the table, and those
  that its publications supersede.
*/
module GateTally {
  import opened Gate
  import opened GateStore
  import opened Wrappers

  /** The rows of one status. */
  function Rows(runs: seq<ParseRun>, status: Status): nat {
    if runs == [] then 0
    else Rows(runs[..|runs| - 1], status) + if runs[|runs| - 1].status == status then 1 else 0
  }

  /** Of the first `n` rows, those superseded by a later row. */
  function Overtaken(runs: seq<ParseRun>, n: nat): nat
    requires n <= |runs|
  {
    if n == 0 then 0
    else
      var link := runs[n - 1].supersededBy;
      Overtaken(runs, n - 1) + if link.Some? && link.value > n - 1 then 1 else 0
  }

  /** What a summary gained is what the table gained: successes, failures, and rows superseded by later ones. */
  ghost predicate RowsCounted(before: seq<ParseRun>, after: seq<ParseRun>, s: Summary, s': Summary) {
    && Rows(after, Succeeded) + s.parsed == Rows(before, Succeeded) + s'.parsed
    && Rows(after, Failed) + s.errors == Rows(before, Failed) + s'.errors
    && Overtaken(after, |after|) + s.superseded == Overtaken(before, |before|) + s'.superseded
  }

  lemma {:induction false} SameRows(before: seq<ParseRun>, after: seq<ParseRun>, status: Status)
    requires |before| == |after| && forall i :: 0 <= i < |before| ==> after[i].status == before[i].status
    ensures Rows(after, status) == Rows(before, status)
  {
    if before != [] {
      SameRows(before[..|before| - 1], after[..|after| - 1], status);
    }
  }

  lemma OneMoreRow(runs: seq<ParseRun>, row: ParseRun, status: Status)
    ensures Rows(runs + [row], status) == Rows(runs, status) + if row.status == status then 1 else 0
  {
    assert (runs + [row])[..|runs|] == runs;
  }

  lemma {:induction false} SameLinks(before: seq<ParseRun>, after: seq<ParseRun>, n: nat)
    requires n <= |before| && n <= |after| && forall i :: 0 <= i < n ==> after[i].supersededBy == before[i].supersededBy
    ensures Overtaken(after, n) == Overtaken(before, n)
  {
    if n > 0 {
      SameLinks(before, after, n - 1);
    }
  }

  /** A row that nothing supersedes adds itself alone. */
  lemma NewRow(runs: seq<ParseRun>, row: ParseRun)
    requires row.supersededBy.None?
    ensures Overtaken(runs + [row], |runs| + 1) == Overtaken(runs, |runs|)
  {
    SameLinks(runs, runs + [row], |runs|);
  }

  /** Reconciling the last row overtakes the older live ones, as many as are counted. */
  lemma {:induction false} OlderAreOvertaken(runs: seq<ParseRun>, key: Key, id: nat, n: nat)
    requires id < |runs| && n <= id
    ensures Overtaken(Superseding(runs, key, id), n) == Overtaken(runs, n) + OlderCount(runs, key, id, n)
  {
    if n > 0 {
      OlderAreOvertaken(runs, key, id, n - 1);
    }
  }

  lemma {:induction false} NewestIsEarlier(runs: seq<ParseRun>, key: Key, id: nat, n: nat)
    requires id < |runs| && n <= |runs|
    ensures var newest := Newest(runs, key, id, runs[id].version, n); newest.Some? ==> newest.value < n && newest.value != id
  {
    if n > 0 {
      NewestIsEarlier(runs, key, id, n - 1);
    }
  }

  lemma PublishedCounts(s: Store, key: Key, id: nat)
    requires |s.runs| == id + 1 && s.runs[id].supersededBy.None?
    ensures var after := Published(s, key, id).runs;
      && |after| == |s.runs|
      && (forall status :: Rows(after, status) == Rows(s.runs, status))
      && Overtaken(after, id + 1) == Overtaken(s.runs, id + 1) + SupersededCount(s.runs, key, id)
  {
    var after := Reconciled(s.runs, key, id);
    forall status ensures Rows(after, status) == Rows(s.runs, status) {
      SameRows(s.runs, after, status);
    }
    NewestIsEarlier(s.runs, key, id, |s.runs|);
    if Newest(s.runs, key, id, s.runs[id].version, |s.runs|).Some? {
      SameLinks(s.runs, after, id);
    } else {
      OlderAreOvertaken(s.runs, key, id, id);
    }
  }

  lemma FailureCounts(runs: seq<ParseRun>, key: Key, version: string, summary: Summary)
    ensures RowsCounted(runs, runs + [ParseRun(key, version, Failed, None)], summary, summary.(errors := summary.errors + 1))
  {
    var failed := ParseRun(key, version, Failed, None);
    NewRow(runs, failed);
    OneMoreRow(runs, failed, Succeeded);
    OneMoreRow(runs, failed, Failed);
  }

  lemma SuccessCounts(s: Store, key: Key, version: string, observations: nat, summary: Summary)
    ensures var inserted := s.runs + [ParseRun(key, version, Succeeded, None)];
      RowsCounted(s.runs, Published(s.(runs := inserted), key, |s.runs|).runs, summary,
                  summary.(parsed := summary.parsed + 1, observations := observations,
                           superseded := summary.superseded + SupersededCount(inserted, key, |s.runs|)))
  {
    var done := ParseRun(key, version, Succeeded, None);
    NewRow(s.runs, done);
    OneMoreRow(s.runs, done, Succeeded);
    OneMoreRow(s.runs, done, Failed);
    PublishedCounts(s.(runs := s.runs + [done]), key, |s.runs|);
  }

  lemma ThrownCounts(runs: seq<ParseRun>, key: Key, version: string, observations: nat, summary: Summary)
    ensures RowsCounted(runs, runs + [ParseRun(key, version, Succeeded, None)] + [ParseRun(key, version, Failed, None)], summary,
                        summary.(parsed := summary.parsed + 1, observations := observations, errors := summary.errors + 1))
  {
    var done := ParseRun(key, version, Succeeded, None);
    NewRow(runs, done);
    OneMoreRow(runs, done, Succeeded);
    OneMoreRow(runs, done, Failed);
    var counted := summary.(parsed := summary.parsed + 1, observations := observations);
    FailureCounts(runs + [done], key, version, counted);
  }

  /** One pair of the sweep: its summary counts the rows it added and those it superseded, and what it observed. */
  lemma TallyCountsRows(s: Store, artifact: Artifact, parser: Parser, threw: bool, summary: Summary)
    ensures var after := Swept(s, artifact, parser, threw);
      var tallied := Tallied(summary, artifact, parser, Found(s.runs, Key(artifact.id, parser.name), parser.version), threw,
                             SupersededBy(s.runs, artifact, parser));
      && RowsCounted(s.runs, after.runs, summary, tallied)
      && tallied.observations == summary.observations +
           (if tallied.parsed > summary.parsed then parser.parses[artifact.id] else 0)
      && (tallied.skipped > summary.skipped <==>
            && artifact.id in parser.accepts && artifact.clean
            && Found(s.runs, Key(artifact.id, parser.name), parser.version))
  {
    var key := Key(artifact.id, parser.name);
    FailureCounts(s.runs, key, parser.version, summary);
    if artifact.id in parser.parses {
      var observations := summary.observations + parser.parses[artifact.id];
      SuccessCounts(s, key, parser.version, observations, summary);
      ThrownCounts(s.runs, key, parser.version, observations, summary);
    }
  }

  /** A clean artifact that an accepting parser throws on leaves one failed row of that parser and version, and no other. */
  lemma FailedParseLeavesItsRow(s: Store, artifact: Artifact, parser: Parser, threw: bool)
    requires artifact.id in parser.accepts && artifact.clean && artifact.id !in parser.parses
    requires !Found(s.runs, Key(artifact.id, parser.name), parser.version)
    ensures Swept(s, artifact, parser, threw).runs ==
            s.runs + [ParseRun(Key(artifact.id, parser.name), parser.version, Failed, None)]
    ensures Swept(s, artifact, parser, threw).pointers == s.pointers && Swept(s, artifact, parser, threw).events == s.events
  {
  }
}
