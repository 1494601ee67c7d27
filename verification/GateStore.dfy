/**
  The gate's tables as the source updates them, row by row, and the sweep that
  drives them.  Each operation is proved to do what `Gate` says of values.
*/
module GateStore {
  import opened Faults
  import opened Wrappers
  import opened Versions
  import opened Gate

  /** What the sweep reads of an artifact: its id and whether its collection was a clean success. */
  datatype Artifact = Artifact(id: nat, clean: bool)

  /** The artifacts a parser accepts, and how many observations it makes of those it does not throw on. */
  datatype Parser = Parser(name: string, version: string, accepts: set<nat>, parses: map<nat, nat>)

  datatype Summary = Summary(parsed: nat, skipped: nat, superseded: nat, observations: nat, errors: nat, blocked: nat)

  predicate NumericVersion(parsers: seq<Parser>, i: int) {
    0 <= i < |parsers| ==> Numeric(parsers[i].version)
  }

  ghost predicate NumericVersions(parsers: seq<Parser>) {
    forall i :: NumericVersion(parsers, i)
  }

  /** How many of the first `n` parsers accept the artifact, and how many pairs the artifacts have. */
  function AcceptedBy(artifact: Artifact, parsers: seq<Parser>, n: nat): nat
    requires n <= |parsers|
  {
    if n == 0 then 0
    else AcceptedBy(artifact, parsers, n - 1) + if artifact.id in parsers[n - 1].accepts then 1 else 0
  }

  function AcceptedPairs(artifacts: seq<Artifact>, parsers: seq<Parser>): nat {
    if artifacts == [] then 0
    else AcceptedBy(artifacts[0], parsers, |parsers|) + AcceptedPairs(artifacts[1..], parsers)
  }

  /** The pairs whose artifact was not a clean success. */
  function BlockedPairs(artifacts: seq<Artifact>, parsers: seq<Parser>): nat {
    if artifacts == [] then 0
    else (if artifacts[0].clean then 0 else AcceptedBy(artifacts[0], parsers, |parsers|)) + BlockedPairs(artifacts[1..], parsers)
  }

  /** The sweep owes this pair a successful run. */
  predicate Owed(artifact: Artifact, parser: Parser) {
    artifact.id in parser.accepts && artifact.clean && artifact.id in parser.parses
  }

  /** What one artifact and one parser add to the summary; `found` when the version already had its success. */
  function Tallied(s: Summary, artifact: Artifact, parser: Parser, found: bool, threw: bool, superseded: nat): Summary {
    if artifact.id !in parser.accepts then s
    else if !artifact.clean then s.(blocked := s.blocked + 1)
    else if found then s.(skipped := s.skipped + 1)
    else if artifact.id !in parser.parses then s.(errors := s.errors + 1)
    else
      var done := s.(parsed := s.parsed + 1, observations := s.observations + parser.parses[artifact.id]);
      if threw then done.(errors := done.errors + 1) else done.(superseded := done.superseded + superseded)
  }

  /** A clean artifact that the parser accepts and parses, and of which this version has no success yet. */
  predicate Due(runs: seq<ParseRun>, artifact: Artifact, parser: Parser) {
    Owed(artifact, parser) && !Found(runs, Key(artifact.id, parser.name), parser.version)
  }

  /** The gate's tables after one artifact and one parser: an insert, and its publication unless that threw. */
  function Swept(s: Store, artifact: Artifact, parser: Parser, threw: bool): Store {
    var key := Key(artifact.id, parser.name);
    if artifact.id !in parser.accepts || !artifact.clean || Found(s.runs, key, parser.version) then s
    else
      var failed := ParseRun(key, parser.version, Failed, None);
      if artifact.id !in parser.parses then s.(runs := s.runs + [failed])
      else
        var inserted := s.(runs := s.runs + [ParseRun(key, parser.version, Succeeded, None)]);
        if threw then inserted.(runs := inserted.runs + [failed]) else Published(inserted, key, |s.runs|)
  }

  /** How many live runs a new success of this parser's version would supersede. */
  function SupersededBy(runs: seq<ParseRun>, artifact: Artifact, parser: Parser): nat {
    var key := Key(artifact.id, parser.name);
    SupersededCount(runs + [ParseRun(key, parser.version, Succeeded, None)], key, |runs|)
  }

  class PublicationStore {
    var runs: seq<ParseRun>
    var pointers: map<Key, nat>
    var events: seq<PublicationEvent>
    /** The successes handed to `PublishParseRun`. */
    ghost var published: set<nat>
    /** Which of the sweep's publications throw, given beforehand, and how many there have been. */
    const failing: set<nat>
    var attempts: nat

    function View(): Store
      reads this
    {
      Store(runs, pointers, events)
    }

    ghost predicate Valid()
      reads this
    {
      Inv(View(), published)
    }

    constructor (failing: set<nat>)
      ensures Valid() && View() == EMPTY && this.failing == failing && attempts == 0
    {
      this.failing := failing;
      runs, pointers, events, published, attempts := [], map[], [], {}, 0;
    }

    method FindParseRun(key: Key, version: string) returns (id: Option<nat>)
      ensures id.Some? <==> Found(runs, key, version)
      ensures id.Some? ==> id.value < |runs| && runs[id.value].status.Succeeded? && runs[id.value].key == key
                           && runs[id.value].version == version
    {
      for i := 0 to |runs|
        invariant !Found(runs[..i], key, version)
      {
        if runs[i].status.Succeeded? && runs[i].key == key && runs[i].version == version {
          return Some(i);
        }
        assert runs[..i + 1] == runs[..i] + [runs[i]];
      }
      assert runs[..|runs|] == runs;
      id := None;
    }

    /** The unique index refuses a second success of one version. */
    method InsertParseRun(key: Key, version: string, status: Status) returns (id: Option<nat>)
      requires Valid() && Numeric(version)
      modifies this`runs
      ensures Valid()
      ensures id.None? <==> status.Succeeded? && Found(old(runs), key, version)
      ensures runs == if id.None? then old(runs) else old(runs) + [ParseRun(key, version, status, None)]
      ensures id.Some? ==> id.value == |old(runs)|
    {
      var existing := FindParseRun(key, version);
      if status.Succeeded? && existing.Some? {
        return None;
      }
      InsertKept(Gated(View(), published), ParseRun(key, version, status, None));
      id := Some(|runs|);
      runs := runs + [ParseRun(key, version, status, None)];
    }

    method NewestLive(key: Key, id: nat) returns (newer: Option<nat>)
      requires Valid() && id < |runs| && runs[id].status.Succeeded?
      ensures newer == Newest(runs, key, id, runs[id].version, |runs|)
    {
      newer := None;
      for i := 0 to |runs|
        invariant newer == Newest(runs, key, id, runs[id].version, i)
        invariant newer.Some? ==> newer.value < i
      {
        if LiveOther(runs, key, id, i) {
          var c := CompareVersions(runs[i].version, runs[id].version);
          if c > 0 {
            if newer.None? {
              newer := Some(i);
            } else {
              var d := CompareVersions(runs[i].version, runs[newer.value].version);
              if d > 0 {
                newer := Some(i);
              }
            }
          }
        }
      }
    }

    method SupersedeOlderParseRuns(key: Key, id: nat) returns (superseded: nat)
      requires Valid() && id < |runs| && runs[id].status.Succeeded?
      modifies this`runs
      ensures runs == Reconciled(old(runs), key, id)
      ensures superseded == SupersededCount(old(runs), key, id)
    {
      var version := runs[id].version;
      var newer := NewestLive(key, id);
      if newer.Some? {
        runs := runs[id := runs[id].(supersededBy := newer)];
        return 0;
      }
      superseded := 0;
      var before := runs;
      for i := 0 to |before|
        invariant |runs| == |before|
        invariant forall j :: 0 <= j < i ==> runs[j] == Superseding(before, key, id)[j]
        invariant forall j :: i <= j < |runs| ==> runs[j] == before[j]
        invariant superseded == OlderCount(before, key, id, i)
      {
        if LiveOther(before, key, id, i) {
          var c := CompareVersions(before[i].version, version);
          if c < 0 {
            runs := runs[i := runs[i].(supersededBy := Some(id))];
            superseded := superseded + 1;
          }
        }
      }
    }

    /** Lineage, then the pointer and one event in the same transaction, if the run is left current. */
    method PublishParseRun(key: Key, id: nat) returns (superseded: nat)
      requires Valid() && id < |runs| && runs[id].status.Succeeded? && runs[id].key == key && id !in published
      modifies this`runs, this`pointers, this`events, this`published
      ensures Valid() && View() == Published(old(View()), key, id) && published == old(published) + {id}
      ensures superseded == SupersededCount(old(runs), key, id)
    {
      PublishKept(Gated(View(), published), id);
      ghost var was := View();
      superseded := SupersedeOlderParseRuns(key, id);
      published := published + {id};
      if runs[id].status.Failed? || runs[id].supersededBy.Some? {
        return;
      }
      var k := runs[id].key;
      events := events + [PublicationEvent(k, if k in pointers then Some(pointers[k]) else None, id)];
      pointers := pointers[k := id];
    }

    /** The successes never handed to `PublishParseRun`. */
    ghost function Unpublished(): set<nat>
      reads this
    {
      set i: nat | i < |runs| && runs[i].status.Succeeded? && i !in published
    }

    /** One artifact and one parser of the sweep; `threw` when its publication is one of those that throw. */
    method RunParser(artifact: Artifact, parser: Parser, summary: Summary)
      returns (after: Summary, threw: bool)
      requires Valid() && Numeric(parser.version)
      modifies this
      ensures Valid() && old(Unpublished()) <= Unpublished() && (!threw ==> Unpublished() == old(Unpublished()))
      ensures attempts == old(attempts) + if Due(old(runs), artifact, parser) then 1 else 0
      ensures threw <==> Due(old(runs), artifact, parser) && old(attempts) in failing
      ensures Keeps(old(runs), runs)
      ensures ServedBy(runs, artifact, parser)
      ensures View() == Swept(old(View()), artifact, parser, threw)
      ensures after == Tallied(summary, artifact, parser, Found(old(runs), Key(artifact.id, parser.name), parser.version),
                               threw, SupersededBy(old(runs), artifact, parser))
      ensures Total(after) == Total(summary) + (if artifact.id in parser.accepts then 1 else 0) + (if threw then 1 else 0)
      ensures SettledBy(old(runs), artifact, parser) ==>
                View() == old(View()) && !threw && after.parsed == summary.parsed && after.errors == summary.errors
    {
      after, threw := summary, false;
      if artifact.id !in parser.accepts {
        return;
      }
      if !artifact.clean {
        after := after.(blocked := after.blocked + 1);
        return;
      }
      var key := Key(artifact.id, parser.name);
      var existing := FindParseRun(key, parser.version);
      if existing.Some? {
        after := after.(skipped := after.skipped + 1);
        return;
      }
      if artifact.id !in parser.parses {
        var _ := InsertParseRun(key, parser.version, Failed);
        after := after.(errors := after.errors + 1);
        return;
      }
      var id := InsertParseRun(key, parser.version, Succeeded);
      assert runs[id.value] == ParseRun(key, parser.version, Succeeded, None);
      after := after.(parsed := after.parsed + 1, observations := after.observations + parser.parses[artifact.id]);
      threw := attempts in failing;
      attempts := attempts + 1;
      if threw {
        var _ := InsertParseRun(key, parser.version, Failed);
        after := after.(errors := after.errors + 1);
        assert runs[id.value] == ParseRun(key, parser.version, Succeeded, None);
        return;
      }
      ReconciledLinks(View(), id.value);
      var superseded := PublishParseRun(key, id.value);
      after := after.(superseded := after.superseded + superseded);
    }

    /** All parsers over one artifact. */
    method RunArtifact(artifact: Artifact, parsers: seq<Parser>, summary: Summary, ghost total: nat)
      returns (after: Summary, threw: nat, ghost total': nat)
      requires total == Total(summary)
      ensures total' == Total(after)
      requires Valid() && NumericVersions(parsers)
      modifies this
      ensures Valid() && old(Unpublished()) <= Unpublished() && (threw == 0 ==> Unpublished() == old(Unpublished()))
      ensures attempts >= old(attempts) && threw == FailCount(failing, attempts) - FailCount(failing, old(attempts))
      ensures Keeps(old(runs), runs)
      ensures Served(runs, artifact, parsers)
      ensures total' == total + AcceptedBy(artifact, parsers, |parsers|) + threw
      ensures after.blocked == summary.blocked + if artifact.clean then 0 else AcceptedBy(artifact, parsers, |parsers|)
      ensures Settled(old(runs), artifact, parsers) ==>
                View() == old(View()) && threw == 0 && after.parsed == summary.parsed && after.errors == summary.errors
    {
      after, threw, total' := summary, 0, total;
      for i := 0 to |parsers|
        invariant Valid() && old(Unpublished()) <= Unpublished() && (threw == 0 ==> Unpublished() == old(Unpublished()))
        invariant attempts >= old(attempts) && threw == FailCount(failing, attempts) - FailCount(failing, old(attempts))
        invariant Keeps(old(runs), runs)
        invariant Served(runs, artifact, parsers[..i])
        invariant total' == Total(after) && total' == total + AcceptedBy(artifact, parsers, i) + threw
        invariant after.blocked == summary.blocked + if artifact.clean then 0 else AcceptedBy(artifact, parsers, i)
        invariant Settled(old(runs), artifact, parsers) ==>
                    View() == old(View()) && threw == 0 && after.parsed == summary.parsed && after.errors == summary.errors
      {
        ghost var before := runs;
        assert NumericVersion(parsers, i);
        var t: bool;
        after, t := RunParser(artifact, parsers[i], after);
        threw := threw + if t then 1 else 0;
        total' := Total(after);
        ServedNext(before, runs, artifact, parsers, i);
      }
      assert parsers[..|parsers|] == parsers;
    }

    /** The pointer of every key with a success names a newest one. */
    ghost predicate PointsToNewest()
      reads this
    {
      forall key, i: nat :: SuccessOf(View(), key, i) ==> key in pointers && IsNewest(View(), key, pointers[key])
    }

    /**
      The sweep.  Every accepted pair is counted once, and once more if its publication threw, which
      happens only at a failing publication; every pair owed a success has one; a run that was left
      unpublished stays so; a sweep over settled artifacts changes nothing; and with nothing left
      unpublished before or by it, every pointer names a newest success.
     */
    method RunParsers(artifacts: seq<Artifact>, parsers: seq<Parser>)
      returns (summary: Summary, threw: nat)
      requires Valid() && NumericVersions(parsers)
      modifies this
      ensures Valid() && old(Unpublished()) <= Unpublished() && (threw == 0 ==> Unpublished() == old(Unpublished()))
      ensures attempts >= old(attempts) && (threw == 0 <==> NoneFails(failing, old(attempts), attempts))
      ensures forall i :: 0 <= i < |artifacts| ==> Served(runs, artifacts[i], parsers)
      ensures Total(summary) == AcceptedPairs(artifacts, parsers) + threw
      ensures summary.blocked == BlockedPairs(artifacts, parsers)
      ensures AllSettled(old(runs), artifacts, parsers) ==>
                View() == old(View()) && summary.parsed == 0 && summary.errors == 0
      ensures threw == 0 && old(Unpublished()) == {} ==> PointsToNewest()
    {
      summary, threw := Summary(0, 0, 0, 0, 0, 0), 0;
      ghost var settled, total: nat := AllSettled(runs, artifacts, parsers), 0;
      assert artifacts[0..] == artifacts;
      for i := 0 to |artifacts|
        invariant Valid() && old(Unpublished()) <= Unpublished() && (threw == 0 ==> Unpublished() == old(Unpublished()))
        invariant attempts >= old(attempts) && threw == FailCount(failing, attempts) - FailCount(failing, old(attempts))
        invariant forall j :: 0 <= j < i ==> Served(runs, artifacts[j], parsers)
        invariant total == Total(summary) && total + AcceptedPairs(artifacts[i..], parsers) == AcceptedPairs(artifacts, parsers) + threw
        invariant summary.blocked + BlockedPairs(artifacts[i..], parsers) == BlockedPairs(artifacts, parsers)
        invariant settled ==> View() == old(View()) && summary.parsed == 0 && summary.errors == 0
      {
        ghost var before := runs;
        assert settled ==> Settled(runs, artifacts[i], parsers);
        var t: nat;
        summary, t, total := RunArtifact(artifacts[i], parsers, summary, total);
        assert artifacts[i..][1..] == artifacts[i + 1..];
        threw := threw + t;
        forall j | 0 <= j < i ensures Served(runs, artifacts[j], parsers) {
          ServedKept(before, runs, artifacts[j], parsers);
        }
      }
      FailCountGrows(failing, old(attempts), attempts);
      if Unpublished() == {} {
        NothingUnpublishedIsNewest();
      }
    }

    lemma NothingUnpublishedIsNewest()
      requires Valid() && Unpublished() == {}
      ensures PointsToNewest()
    {
      forall key, i: nat | SuccessOf(View(), key, i) ensures key in pointers && IsNewest(View(), key, pointers[key]) {
        forall j: nat | SuccessOf(View(), key, j) ensures j in published {
          assert j !in Unpublished();
        }
        AllPublishedPointsToNewest(Gated(View(), published), key, i);
      }
    }
  }

  /** Rows are only added; of an existing row only its link changes. */
  ghost predicate Keeps(before: seq<ParseRun>, after: seq<ParseRun>) {
    |before| <= |after| && forall i :: 0 <= i < |before| ==> after[i] == before[i].(supersededBy := after[i].supersededBy)
  }

  /** Every parser that accepts this clean artifact already has its success. */
  ghost predicate Settled(runs: seq<ParseRun>, artifact: Artifact, parsers: seq<Parser>) {
    forall i :: 0 <= i < |parsers| ==> SettledBy(runs, artifact, parsers[i])
  }

  predicate SettledBy(runs: seq<ParseRun>, artifact: Artifact, parser: Parser) {
    artifact.id in parser.accepts && artifact.clean ==> Found(runs, Key(artifact.id, parser.name), parser.version)
  }

  ghost predicate AllSettled(runs: seq<ParseRun>, artifacts: seq<Artifact>, parsers: seq<Parser>) {
    forall i :: 0 <= i < |artifacts| ==> Settled(runs, artifacts[i], parsers)
  }

  /** Every success owed for this artifact is there. */
  ghost predicate Served(runs: seq<ParseRun>, artifact: Artifact, parsers: seq<Parser>) {
    forall i :: 0 <= i < |parsers| ==> ServedBy(runs, artifact, parsers[i])
  }

  predicate ServedBy(runs: seq<ParseRun>, artifact: Artifact, parser: Parser) {
    Owed(artifact, parser) ==> Found(runs, Key(artifact.id, parser.name), parser.version)
  }

  lemma ServedKept(before: seq<ParseRun>, after: seq<ParseRun>, artifact: Artifact, parsers: seq<Parser>)
    requires Served(before, artifact, parsers) && Keeps(before, after)
    ensures Served(after, artifact, parsers)
  {
    forall i | 0 <= i < |parsers| ensures ServedBy(after, artifact, parsers[i]) {
      assert ServedBy(before, artifact, parsers[i]);
    }
  }

  lemma ServedNext(before: seq<ParseRun>, after: seq<ParseRun>, artifact: Artifact, parsers: seq<Parser>, i: nat)
    requires i < |parsers| && Served(before, artifact, parsers[..i]) && Keeps(before, after)
    requires ServedBy(after, artifact, parsers[i])
    ensures Served(after, artifact, parsers[..i + 1])
  {
    ServedKept(before, after, artifact, parsers[..i]);
    var served := parsers[..i + 1];
    forall j | 0 <= j < |served| ensures ServedBy(after, artifact, served[j]) {
      assert j < i ==> ServedBy(after, artifact, parsers[..i][j]);
    }
  }

  function OlderCount(runs: seq<ParseRun>, key: Key, id: nat, n: nat): nat
    requires n <= |runs| && id < |runs|
  {
    if n == 0 then 0
    else OlderCount(runs, key, id, n - 1) + if Older(runs, key, id, runs[id].version, n - 1) then 1 else 0
  }

  function SupersededCount(runs: seq<ParseRun>, key: Key, id: nat): nat
    requires id < |runs|
  {
    if Newest(runs, key, id, runs[id].version, |runs|).Some? then 0 else OlderCount(runs, key, id, |runs|)
  }

  /** The pairs a summary accounts for. */
  function Total(s: Summary): nat {
    s.parsed + s.skipped + s.errors + s.blocked
  }
}
