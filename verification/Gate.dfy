/**
  The publication gate as values: parse runs with their lineage, the published
  pointer of each (artifact, parser), and the event log.  Inserting a run and
  publishing it are separate steps, as they are separate transactions.
*/
module Gate {
  import opened Wrappers
  import opened Texts
  import opened Versions

  datatype Key = Key(artifactId: nat, parserName: string)

  datatype Status = Succeeded | Failed

  /** A row of `parse_runs`; its id is its index. */
  datatype ParseRun = ParseRun(key: Key, version: string, status: Status, supersededBy: Option<nat>)

  datatype PublicationEvent = PublicationEvent(key: Key, previous: Option<nat>, published: nat)

  datatype Store = Store(runs: seq<ParseRun>, pointers: map<Key, nat>, events: seq<PublicationEvent>)

  const EMPTY := Store([], map[], [])

  // ----- the operations -----

  /** The successful run of this exact version, which the unique index makes the only one. */
  predicate Found(runs: seq<ParseRun>, key: Key, version: string) {
    exists i :: 0 <= i < |runs| && runs[i].status.Succeeded? && runs[i].key == key && runs[i].version == version
  }

  /** A live run of the same key as `id`, other than `id`. */
  predicate LiveOther(runs: seq<ParseRun>, key: Key, id: nat, i: nat) {
    i < |runs| && i != id && runs[i].key == key && runs[i].status.Succeeded? && runs[i].supersededBy.None?
  }

  /** The first of the newest among the first `n` live others that are newer than `version`. */
  function Newest(runs: seq<ParseRun>, key: Key, id: nat, version: string, n: nat): Option<nat>
    requires n <= |runs|
  {
    if n == 0 then None
    else
      var best := Newest(runs, key, id, version, n - 1);
      var i := n - 1;
      if LiveOther(runs, key, id, i) && Compare(runs[i].version, version) > 0
         && (best.None? || (best.value < |runs| && Compare(runs[i].version, runs[best.value].version) > 0))
      then Some(i) else best
  }

  predicate Older(runs: seq<ParseRun>, key: Key, id: nat, version: string, i: nat) {
    LiveOther(runs, key, id, i) && Compare(runs[i].version, version) < 0
  }

  /** Every older live run superseded by `id`. */
  function Superseding(runs: seq<ParseRun>, key: Key, id: nat): seq<ParseRun>
    requires id < |runs|
  {
    seq(|runs|, i requires 0 <= i < |runs| =>
      if Older(runs, key, id, runs[id].version, i) then runs[i].(supersededBy := Some(id)) else runs[i])
  }

  /** The runs after the lineage of `id` under `key` was reconciled. */
  function Reconciled(runs: seq<ParseRun>, key: Key, id: nat): seq<ParseRun>
    requires id < |runs|
  {
    var newer := Newest(runs, key, id, runs[id].version, |runs|);
    if newer.Some? then runs[id := runs[id].(supersededBy := newer)] else Superseding(runs, key, id)
  }

  function Published(s: Store, key: Key, id: nat): Store
    requires id < |s.runs|
  {
    var runs := Reconciled(s.runs, key, id);
    if runs[id].status.Failed? || runs[id].supersededBy.Some? then s.(runs := runs)
    else
      var k := runs[id].key;
      Store(runs, s.pointers[k := id],
            s.events + [PublicationEvent(k, if k in s.pointers then Some(s.pointers[k]) else None, id)])
  }

  // ----- what holds whatever was published, in whatever order -----

  predicate SuccessOf(s: Store, key: Key, i: nat) {
    i < |s.runs| && s.runs[i].status.Succeeded? && s.runs[i].key == key
  }

  predicate LiveOf(s: Store, key: Key, i: nat) {
    SuccessOf(s, key, i) && s.runs[i].supersededBy.None?
  }

  /** A superseded run points to a strictly newer success of its own key. */
  ghost predicate LinkOk(s: Store, i: nat)
    requires i < |s.runs|
  {
    s.runs[i].supersededBy.Some? ==>
      && s.runs[i].status.Succeeded?
      && SuccessOf(s, s.runs[i].key, s.runs[i].supersededBy.value)
      && Compare(s.runs[s.runs[i].supersededBy.value].version, s.runs[i].version) > 0
  }

  /** The current run is live and was published; a published live run ties with it. */
  ghost predicate PointerOk(s: Store, published: set<nat>, key: Key) {
    && (key in s.pointers ==> LiveOf(s, key, s.pointers[key]) && s.pointers[key] in published)
    && (forall i :: i in published && LiveOf(s, key, i) ==>
          key in s.pointers && Compare(s.runs[i].version, s.runs[s.pointers[key]].version) == 0)
  }

  /** The pointers that the event log, replayed, leaves; none if an event misstates its predecessor. */
  function Replay(events: seq<PublicationEvent>): Option<map<Key, nat>> {
    if events == [] then Some(map[])
    else
      var before, e := Replay(events[..|events| - 1]), events[|events| - 1];
      if before.Some? && e.previous == (if e.key in before.value then Some(before.value[e.key]) else None)
      then Some(before.value[e.key := e.published]) else None
  }

  /** `published` are the successful runs handed to the gate so far. */
  ghost predicate Inv(s: Store, published: set<nat>) {
    && NumericRuns(s)
    && LinksOk(s)
    && (forall i :: i in published ==> i < |s.runs| && s.runs[i].status.Succeeded?)
    && (forall k :: PointerOk(s, published, k))
    && Replay(s.events) == Some(s.pointers)
  }

  lemma NewestIsNewest(runs: seq<ParseRun>, key: Key, id: nat, version: string, n: nat)
    requires n <= |runs| && Numeric(version)
    requires forall i :: 0 <= i < |runs| && runs[i].status.Succeeded? ==> Numeric(runs[i].version)
    ensures var r := Newest(runs, key, id, version, n);
      && (r.Some? ==> r.value < n && LiveOther(runs, key, id, r.value) && Compare(runs[r.value].version, version) > 0)
      && (forall i :: 0 <= i < n && LiveOther(runs, key, id, i) && Compare(runs[i].version, version) > 0 ==>
            r.Some? && Compare(runs[r.value].version, runs[i].version) >= 0)
  {
    if n > 0 {
      NewestIsNewest(runs, key, id, version, n - 1);
      var r := Newest(runs, key, id, version, n);
      var best := Newest(runs, key, id, version, n - 1);
      forall i | 0 <= i < n && LiveOther(runs, key, id, i) && Compare(runs[i].version, version) > 0
        ensures r.Some? && Compare(runs[r.value].version, runs[i].version) >= 0
      {
        CompareIsAntisymmetric(runs[r.value].version, runs[i].version);
        CompareMeaning(runs[i].version, runs[i].version);
        if best.Some? && r.value == n - 1 && i < n - 1 {
          CompareIsTransitive(runs[r.value].version, runs[best.value].version, runs[i].version);
        }
        if best.Some? && i == n - 1 {
          CompareIsAntisymmetric(runs[best.value].version, runs[i].version);
        }
      }
    }
  }

  ghost predicate NumericRuns(s: Store) {
    forall i :: 0 <= i < |s.runs| && s.runs[i].status.Succeeded? ==> Numeric(s.runs[i].version)
  }

  ghost predicate LinksOk(s: Store) {
    forall i :: 0 <= i < |s.runs| ==> LinkOk(s, i)
  }

  /** The successes newer than `i`. */
  ghost function NewerThan(s: Store, i: nat): set<nat>
    requires i < |s.runs|
  {
    set k: nat | k < |s.runs| && s.runs[k].status.Succeeded? && Compare(s.runs[k].version, s.runs[i].version) > 0
  }

  /** Lineage has no cycle: from any success it leads up, through strictly newer versions, to a live one. */
  lemma {:induction false} LineageEndsLive(s: Store, key: Key, i: nat) returns (j: nat)
    requires NumericRuns(s) && LinksOk(s) && SuccessOf(s, key, i)
    ensures LiveOf(s, key, j) && Compare(s.runs[j].version, s.runs[i].version) >= 0
    ensures j != i ==> Compare(s.runs[j].version, s.runs[i].version) > 0
    decreases |NewerThan(s, i)|
  {
    CompareMeaning(s.runs[i].version, s.runs[i].version);
    if s.runs[i].supersededBy.None? {
      return i;
    }
    assert LinkOk(s, i);
    var up := s.runs[i].supersededBy.value;
    CompareMeaning(s.runs[up].version, s.runs[up].version);
    forall k | k in NewerThan(s, up) ensures k in NewerThan(s, i) {
      CompareIsTransitive(s.runs[k].version, s.runs[up].version, s.runs[i].version);
    }
    assert up in NewerThan(s, i) && up !in NewerThan(s, up);
    SmallerSet(NewerThan(s, up), NewerThan(s, i));
    j := LineageEndsLive(s, key, up);
    CompareIsTransitive(s.runs[j].version, s.runs[up].version, s.runs[i].version);
    CompareMeaning(s.runs[j].version, s.runs[i].version);
  }

  lemma SmallerSet(a: set<nat>, b: set<nat>)
    requires a < b
    ensures |a| < |b|
  {
    assert b == a + (b - a);
  }

  // ----- runs of the gate -----

  datatype Step = Insert(run: ParseRun) | Publish(id: nat)

  /** The store and the successful runs published so far. */
  datatype Gated = Gated(store: Store, published: set<nat>)

  /** A run is inserted unsuperseded, a success only once per version; a success is published at most once. */
  ghost predicate Allowed(g: Gated, step: Step) {
    match step
    case Insert(run) =>
      && run.supersededBy.None?
      && (run.status.Succeeded? ==> Numeric(run.version) && !Found(g.store.runs, run.key, run.version))
    case Publish(id) => id < |g.store.runs| && g.store.runs[id].status.Succeeded? && id !in g.published
  }

  ghost function Done(g: Gated, step: Step): Gated
    requires Allowed(g, step)
  {
    match step
    case Insert(run) => g.(store := g.store.(runs := g.store.runs + [run]))
    case Publish(id) => Gated(Published(g.store, g.store.runs[id].key, id), g.published + {id})
  }

  lemma InsertKept(g: Gated, run: ParseRun)
    requires Inv(g.store, g.published) && Allowed(g, Insert(run))
    ensures var g' := Done(g, Insert(run)); Inv(g'.store, g'.published)
  {
    var s, s' := g.store, Done(g, Insert(run)).store;
    forall i | 0 <= i < |s'.runs| ensures LinkOk(s', i) {
      assert i < |s.runs| ==> LinkOk(s, i);
    }
    forall k ensures PointerOk(s', g.published, k) {
      assert PointerOk(s, g.published, k);
    }
  }

  /** Reconciling rewrites only links: to `id` for older live runs, or `id`'s own to a newer live one. */
  lemma ReconciledLinks(s: Store, id: nat)
    requires NumericRuns(s) && LinksOk(s) && id < |s.runs| && s.runs[id].status.Succeeded?
    ensures var s' := s.(runs := Reconciled(s.runs, s.runs[id].key, id));
      && |s'.runs| == |s.runs|
      && (forall i :: 0 <= i < |s.runs| ==> s'.runs[i] == s.runs[i].(supersededBy := s'.runs[i].supersededBy))
      && NumericRuns(s') && LinksOk(s')
  {
    var key, version := s.runs[id].key, s.runs[id].version;
    var s' := s.(runs := Reconciled(s.runs, key, id));
    NewestIsNewest(s.runs, key, id, version, |s.runs|);
    forall i | 0 <= i < |s'.runs| ensures LinkOk(s', i) {
      assert LinkOk(s, i);
      if Older(s.runs, key, id, version, i) {
        CompareIsAntisymmetric(s.runs[i].version, version);
      }
    }
  }

  /** When `id` ends up live, no live run of its key is newer, and every older one is superseded. */
  lemma ReconciledLive(s: Store, id: nat)
    requires NumericRuns(s) && LinksOk(s) && id < |s.runs| && s.runs[id].status.Succeeded?
    ensures var key, version, runs := s.runs[id].key, s.runs[id].version, Reconciled(s.runs, s.runs[id].key, id);
      if runs[id].supersededBy.None? then
        forall i :: 0 <= i < |runs| && LiveOther(runs, key, id, i) ==>
          Compare(s.runs[i].version, version) == 0 && runs[i] == s.runs[i]
      else forall i :: 0 <= i < |runs| && i != id ==> runs[i] == s.runs[i]
  {
    var key, version := s.runs[id].key, s.runs[id].version;
    NewestIsNewest(s.runs, key, id, version, |s.runs|);
    if Newest(s.runs, key, id, version, |s.runs|).None? && s.runs[id].supersededBy.Some? {
      var j := LineageEndsLive(s, key, id);
      assert LiveOther(s.runs, key, id, j);
    }
  }

  /** Links are a matter of the runs alone. */
  lemma LinksOfRuns(s: Store, s': Store)
    requires s.runs == s'.runs && LinksOk(s) && NumericRuns(s)
    ensures LinksOk(s') && NumericRuns(s')
  {
    forall i | 0 <= i < |s'.runs| ensures LinkOk(s', i) {
      assert LinkOk(s, i);
    }
  }

  lemma PublishKeepsPointer(g: Gated, id: nat, k: Key)
    requires NumericRuns(g.store) && LinksOk(g.store) && Allowed(g, Publish(id)) && PointerOk(g.store, g.published, k)
    requires forall i :: i in g.published ==> i < |g.store.runs|
    ensures var g' := Done(g, Publish(id)); PointerOk(g'.store, g'.published, k)
  {
    var s := g.store;
    ReconciledLinks(s, id);
    ReconciledLive(s, id);
    CompareMeaning(s.runs[id].version, s.runs[id].version);
  }

  lemma PublishKept(g: Gated, id: nat)
    requires Inv(g.store, g.published) && Allowed(g, Publish(id))
    ensures var g' := Done(g, Publish(id)); Inv(g'.store, g'.published)
  {
    var s, g' := g.store, Done(g, Publish(id));
    ReconciledLinks(s, id);
    LinksOfRuns(s.(runs := Reconciled(s.runs, s.runs[id].key, id)), g'.store);
    forall k ensures PointerOk(g'.store, g'.published, k) {
      assert PointerOk(s, g.published, k);
      PublishKeepsPointer(g, id, k);
    }
    PublishReplays(s, s.runs[id].key, id);
  }

  /** The event a publication appends is the one that moves the pointer. */
  lemma PublishReplays(s: Store, key: Key, id: nat)
    requires id < |s.runs| && Replay(s.events) == Some(s.pointers)
    ensures Replay(Published(s, key, id).events) == Some(Published(s, key, id).pointers)
  {
    var s' := Published(s, key, id);
    if s'.events != s.events {
      assert s'.events[..|s'.events| - 1] == s.events;
    }
  }

  ghost function After(g: Gated, steps: seq<Step>): Option<Gated>
    decreases |steps|
  {
    if steps == [] then Some(g)
    else if Allowed(g, steps[0]) then After(Done(g, steps[0]), steps[1..])
    else None
  }

  lemma {:induction false} InvAlways(g: Gated, steps: seq<Step>)
    requires Inv(g.store, g.published) && After(g, steps).Some?
    ensures var g' := After(g, steps).value; Inv(g'.store, g'.published)
    decreases |steps|
  {
    if steps != [] {
      match steps[0] {
        case Insert(run) => InsertKept(g, run);
        case Publish(id) => PublishKept(g, id);
      }
      InvAlways(Done(g, steps[0]), steps[1..]);
    }
  }

  ghost predicate Reachable(g: Gated, steps: seq<Step>) {
    After(Gated(EMPTY, {}), steps) == Some(g)
  }

  lemma Reached(g: Gated, steps: seq<Step>)
    requires Reachable(g, steps)
    ensures Inv(g.store, g.published)
  {
    assert Inv(EMPTY, {});
    InvAlways(Gated(EMPTY, {}), steps);
  }

  /**
    After any inserts and publications, in any interleaving, the pointer is a live
    success, superseded runs lead to strictly newer successes of their key, and the
    event log replays to exactly the pointers.
   */
  lemma GateAlwaysConsistent(g: Gated, steps: seq<Step>, key: Key)
    requires Reachable(g, steps)
    ensures key in g.store.pointers ==> LiveOf(g.store, key, g.store.pointers[key])
    ensures forall i :: i in g.published && LiveOf(g.store, key, i) ==>
              key in g.store.pointers && Compare(g.store.runs[i].version, g.store.runs[g.store.pointers[key]].version) == 0
    ensures LinksOk(g.store) && Replay(g.store.events) == Some(g.store.pointers)
  {
    Reached(g, steps);
    assert PointerOk(g.store, g.published, key);
  }

  lemma PublishNotOlder(g: Gated, step: Step, key: Key)
    requires Inv(g.store, g.published) && Allowed(g, step) && key in g.store.pointers
    ensures var s, s' := g.store, Done(g, step).store;
      key in s'.pointers && s.pointers[key] < |s.runs| <= |s'.runs| && s'.pointers[key] < |s'.runs| &&
      Compare(s'.runs[s'.pointers[key]].version, s.runs[s.pointers[key]].version) >= 0 &&
      s'.runs[s.pointers[key]].version == s.runs[s.pointers[key]].version
  {
    var s := g.store;
    assert PointerOk(s, g.published, key);
    CompareMeaning(s.runs[s.pointers[key]].version, s.runs[s.pointers[key]].version);
    if step.Publish? {
      var id := step.id;
      ReconciledLinks(s, id);
      NewestIsNewest(s.runs, s.runs[id].key, id, s.runs[id].version, |s.runs|);
      ReconciledLive(s, id);
      CompareIsAntisymmetric(s.runs[id].version, s.runs[s.pointers[key]].version);
    }
  }

  /** The published version of a key never goes down, over any later steps. */
  lemma {:induction false} PointerNeverGoesBack(g: Gated, steps: seq<Step>, key: Key)
    requires Inv(g.store, g.published) && After(g, steps).Some? && key in g.store.pointers
    ensures var s, s' := g.store, After(g, steps).value.store;
      && key in s'.pointers && s.pointers[key] < |s.runs| && s'.pointers[key] < |s'.runs|
      && Compare(s'.runs[s'.pointers[key]].version, s.runs[s.pointers[key]].version) >= 0
    decreases |steps|
  {
    assert PointerOk(g.store, g.published, key);
    if steps == [] {
      CompareMeaning(g.store.runs[g.store.pointers[key]].version, g.store.runs[g.store.pointers[key]].version);
    } else {
      var g1, g' := Done(g, steps[0]), After(g, steps).value;
      InvAlways(g, steps[..1]);
      PublishNotOlder(g, steps[0], key);
      assert Inv(g1.store, g1.published) by {
        assert After(g, steps[..1]) == Some(g1);
      }
      PointerNeverGoesBack(g1, steps[1..], key);
      InvAlways(g, steps);
      assert PointerOk(g1.store, g1.published, key) && PointerOk(g'.store, g'.published, key);
      CompareIsTransitive(g'.store.runs[g'.store.pointers[key]].version, g1.store.runs[g1.store.pointers[key]].version,
                          g.store.runs[g.store.pointers[key]].version);
    }
  }

  // ----- when the pointer is the newest success -----

  ghost predicate IsNewest(s: Store, key: Key, i: nat) {
    SuccessOf(s, key, i) && forall j: nat :: SuccessOf(s, key, j) ==> Compare(s.runs[i].version, s.runs[j].version) >= 0
  }

  /**
    The current run is a newest success exactly when some newest success was
    published.  A run inserted and never published is what breaks it.
   */
  lemma PointerIsNewestIff(g: Gated, steps: seq<Step>, key: Key)
    requires Reachable(g, steps)
    ensures (key in g.store.pointers && IsNewest(g.store, key, g.store.pointers[key])) <==>
            (exists i :: i in g.published && IsNewest(g.store, key, i))
  {
    var s := g.store;
    Reached(g, steps);
    assert PointerOk(s, g.published, key);
    if i :| i in g.published && IsNewest(s, key, i) {
      assert LinkOk(s, i);
      if s.runs[i].supersededBy.Some? {
        CompareIsAntisymmetric(s.runs[i].version, s.runs[s.runs[i].supersededBy.value].version);
      }
      var p := s.pointers[key];
      CompareIsAntisymmetric(s.runs[i].version, s.runs[p].version);
      forall j: nat | SuccessOf(s, key, j) ensures Compare(s.runs[p].version, s.runs[j].version) >= 0 {
        CompareIsTransitive(s.runs[p].version, s.runs[i].version, s.runs[j].version);
      }
    }
  }

  ghost predicate AllPublished(g: Gated, key: Key) {
    forall i: nat :: SuccessOf(g.store, key, i) ==> i in g.published
  }

  /** Once every success of a key was published, the highest version is current, whatever the order was. */
  lemma AllPublishedPointsToNewest(g: Gated, key: Key, i: nat)
    requires Inv(g.store, g.published) && AllPublished(g, key) && SuccessOf(g.store, key, i)
    ensures key in g.store.pointers && IsNewest(g.store, key, g.store.pointers[key])
    ensures LiveOf(g.store, key, i) <==>
              Compare(g.store.runs[i].version, g.store.runs[g.store.pointers[key]].version) == 0
  {
    var s := g.store;
    assert PointerOk(s, g.published, key);
    var top := LineageEndsLive(s, key, i);
    var p := s.pointers[key];
    forall j: nat | SuccessOf(s, key, j) ensures Compare(s.runs[p].version, s.runs[j].version) >= 0 {
      var l := LineageEndsLive(s, key, j);
      CompareIsAntisymmetric(s.runs[l].version, s.runs[p].version);
      CompareIsTransitive(s.runs[p].version, s.runs[l].version, s.runs[j].version);
    }
    assert LinkOk(s, i);
    if s.runs[i].supersededBy.Some? {
      var up := s.runs[i].supersededBy.value;
      CompareIsTransitive(s.runs[p].version, s.runs[up].version, s.runs[i].version);
      CompareIsAntisymmetric(s.runs[p].version, s.runs[i].version);
    }
  }

  /** Two histories that published the same versions of a key, in any orders, point to the same version. */
  lemma OrderDoesNotMatter(g: Gated, steps: seq<Step>, h: Gated, other: seq<Step>, key: Key)
    requires Reachable(g, steps) && AllPublished(g, key) && Reachable(h, other) && AllPublished(h, key)
    requires forall v :: Found(g.store.runs, key, v) <==> Found(h.store.runs, key, v)
    requires forall v, v' :: Found(g.store.runs, key, v) && Found(g.store.runs, key, v') && Compare(v, v') == 0 ==> v == v'
    ensures key in g.store.pointers <==> key in h.store.pointers
    ensures key in g.store.pointers ==>
              && g.store.pointers[key] < |g.store.runs| && h.store.pointers[key] < |h.store.runs|
              && g.store.runs[g.store.pointers[key]].version == h.store.runs[h.store.pointers[key]].version
  {
    Reached(g, steps);
    Reached(h, other);
    assert PointerOk(g.store, g.published, key) && PointerOk(h.store, h.published, key);
    if key in g.store.pointers || key in h.store.pointers {
      var v := if key in g.store.pointers then g.store.runs[g.store.pointers[key]].version
               else h.store.runs[h.store.pointers[key]].version;
      assert Found(g.store.runs, key, v);
      var i :| 0 <= i < |g.store.runs| && SuccessOf(g.store, key, i) && g.store.runs[i].version == v;
      var j :| 0 <= j < |h.store.runs| && SuccessOf(h.store, key, j) && h.store.runs[j].version == v;
      AllPublishedPointsToNewest(g, key, i);
      AllPublishedPointsToNewest(h, key, j);
      var a, b := g.store.runs[g.store.pointers[key]].version, h.store.runs[h.store.pointers[key]].version;
      assert Found(g.store.runs, key, a) && Found(h.store.runs, key, b);
      var m :| 0 <= m < |h.store.runs| && SuccessOf(h.store, key, m) && h.store.runs[m].version == a;
      var n :| 0 <= n < |g.store.runs| && SuccessOf(g.store, key, n) && g.store.runs[n].version == b;
      assert Compare(a, b) >= 0 && Compare(b, a) >= 0;
      CompareIsAntisymmetric(a, b);
    }
  }

  /**
    A crash between inserting version 2 and publishing it: version 2 is found, so
    no later sweep parses or publishes it again, and the pointer stays at version 1.
   */
  lemma UnpublishedRunSticks(key: Key) returns (g: Gated)
    ensures Reachable(g, [Insert(ParseRun(key, "1", Succeeded, None)), Publish(0), Insert(ParseRun(key, "2", Succeeded, None))])
    ensures Found(g.store.runs, key, "2") && key in g.store.pointers && g.store.pointers[key] == 0
    ensures !IsNewest(g.store, key, 0)
  {
    var one, two := ParseRun(key, "1", Succeeded, None), ParseRun(key, "2", Succeeded, None);
    NoDots("1");
    NoDots("2");
    var g0 := Gated(EMPTY, {});
    var g1 := Done(g0, Insert(one));
    assert g1 == Gated(Store([one], map[], []), {});
    assert Newest([one], key, 0, "1", 0).None? && Superseding([one], key, 0) == [one];
    var g2 := Done(g1, Publish(0));
    assert g2 == Gated(Store([one], map[key := 0], [PublicationEvent(key, None, 0)]), {0});
    g := Done(g2, Insert(two));
    assert g.store.runs == [one, two] && g.store.runs[1] == two;
    TwoIsNewer();
    assert SuccessOf(g.store, key, 1);
    var steps := [Insert(one), Publish(0), Insert(two)];
    assert After(g2, [Insert(two)]) == Some(g);
    assert steps[1..] == [Publish(0), Insert(two)] && steps[1..][1..] == [Insert(two)];
    assert After(g1, steps[1..]) == Some(g);
    assert After(g0, steps) == Some(g);
  }

  lemma TwoIsNewer()
    ensures Compare("1", "2") < 0
  {
    NoDots("1");
    NoDots("2");
    assert DigitsValue("1") == 1 && DigitsValue("2") == 2;
  }
}
