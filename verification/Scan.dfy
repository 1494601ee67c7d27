/** The bounded scan of stored terminals: pages by cursor, and each terminal of a page read. */
module Scan {
  import opened Bucket
  import opened Keys
  import opened Sorting
  import opened Wrappers
  import opened Writer

  function Itself(key: string): string {
    key
  }

  /** The bucket lists this key after this cursor. */
  predicate Listed(objects: Objects, prefix: string, after: Option<string>, key: string) {
    key in objects && prefix <= key && (after.Some? ==> Before(after.value, key))
  }

  predicate Covered(objects: Objects, prefix: string, after: Option<string>, page: Page, key: string) {
    Listed(objects, prefix, after, key) ==>
      key in page.keys || (page.truncated && page.keys != [] && Before(page.keys[|page.keys| - 1], key))
  }

  /** One answer of the bucket's `list`: what it held then, the keys, and whether there are more. */
  datatype Page = Page(objects: Objects, keys: seq<string>, truncated: bool)

  /** The keys come in order, none is passed over, and a page that is not the last has a last key. */
  ghost predicate IsPage(prefix: string, after: Option<string>, page: Page) {
    && (forall key :: key in page.keys ==> Listed(page.objects, prefix, after, key))
    && Ascending(page.keys, Itself)
    && (page.truncated ==> page.keys != [])
    && (forall key :: Covered(page.objects, prefix, after, page, key))
  }

  /** The cursor a page is asked for with: the last key of the page before it. */
  function CursorBefore(pages: seq<Page>, i: nat): Option<string>
    requires i <= |pages|
  {
    if i == 0 || pages[i - 1].keys == [] then None else Some(pages[i - 1].keys[|pages[i - 1].keys| - 1])
  }

  ghost predicate PageOfWalk(prefix: string, pages: seq<Page>, i: int) {
    0 <= i < |pages| ==>
      && IsPage(prefix, CursorBefore(pages, i), pages[i])
      && (pages[i].truncated <==> i < |pages| - 1)
      && (i > 0 ==> Kept(pages[i - 1].objects, pages[i].objects))
  }

  /** A finished walk, the bucket written to between its pages. */
  ghost predicate Walk(prefix: string, pages: seq<Page>) {
    pages != [] && forall i :: PageOfWalk(prefix, pages, i)
  }

  lemma {:induction false} StillThere(prefix: string, pages: seq<Page>, i: nat, key: string)
    requires Walk(prefix, pages) && i < |pages| && key in pages[0].objects
    ensures key in pages[i].objects
  {
    if i > 0 {
      StillThere(prefix, pages, i - 1, key);
      assert PageOfWalk(prefix, pages, i);
      assert KeptAt(pages[i - 1].objects, pages[i].objects, key);
    }
  }

  /** Up to any page, a key stored when the walk began has been met or still lies ahead. */
  lemma {:induction false} MetOrAhead(prefix: string, pages: seq<Page>, i: nat, key: string)
    requires Walk(prefix, pages) && i <= |pages|
    requires key in pages[0].objects && prefix <= key
    ensures (exists j :: 0 <= j < i && key in pages[j].keys)
            || (CursorBefore(pages, i).Some? ==> Before(CursorBefore(pages, i).value, key))
    ensures i == |pages| ==> exists j :: 0 <= j < i && key in pages[j].keys
  {
    if i > 0 {
      MetOrAhead(prefix, pages, i - 1, key);
      StillThere(prefix, pages, i - 1, key);
      assert PageOfWalk(prefix, pages, i - 1);
      assert Covered(pages[i - 1].objects, prefix, CursorBefore(pages, i - 1), pages[i - 1], key);
    }
  }

  lemma LastIsGreatest(keys: seq<string>, key: string)
    requires Ascending(keys, Itself) && key in keys
    ensures key == keys[|keys| - 1] || Before(key, keys[|keys| - 1])
  {
    var j :| 0 <= j < |keys| && keys[j] == key;
    assert Ordered(keys, Itself, j, |keys| - 1);
  }

  /** Every key of a later page comes after every key of an earlier one. */
  lemma {:induction false} PagesAscend(prefix: string, pages: seq<Page>, i: nat, j: nat, a: string, b: string)
    requires Walk(prefix, pages) && i < j < |pages| && a in pages[i].keys && b in pages[j].keys
    ensures Before(a, b)
  {
    assert PageOfWalk(prefix, pages, i) && PageOfWalk(prefix, pages, j) && PageOfWalk(prefix, pages, j - 1);
    var last := pages[j - 1].keys[|pages[j - 1].keys| - 1];
    assert Listed(pages[j].objects, prefix, Some(last), b);
    if i == j - 1 {
      LastIsGreatest(pages[i].keys, a);
    } else {
      PagesAscend(prefix, pages, i, j - 1, a, last);
    }
    if a != last {
      BeforeIsTransitive(a, last, b);
    }
  }

  /**
    A finished walk of the whole prefix meets every terminal that was stored when it began, wherever its
    run id sorts it and whatever was written meanwhile, and meets it on one page only.
  */
  lemma WalkMeetsEachOnce(prefix: string, pages: seq<Page>, key: string) returns (i: nat)
    requires Walk(prefix, pages) && key in pages[0].objects && prefix <= key
    ensures i < |pages| && key in pages[i].keys
    ensures forall j :: 0 <= j < |pages| && key in pages[j].keys ==> j == i
  {
    MetOrAhead(prefix, pages, |pages|, key);
    i :| 0 <= i < |pages| && key in pages[i].keys;
    forall j | 0 <= j < |pages| && key in pages[j].keys ensures j == i {
      BeforeIsTotal(key, key);
      if j < i {
        PagesAscend(prefix, pages, j, i, key, key);
      } else if i < j {
        PagesAscend(prefix, pages, i, j, key, key);
      }
    }
  }

  // ----- one page -----

  function TerminalsAmong(keys: seq<string>): seq<string> {
    if keys == [] then []
    else
      var rest, last := TerminalsAmong(keys[..|keys| - 1]), keys[|keys| - 1];
      if ParseTerminalKey(last).Some? then rest + [last] else rest
  }

  lemma {:induction false} TerminalsAreKeys(keys: seq<string>, key: string)
    ensures key in TerminalsAmong(keys) <==> key in keys && ParseTerminalKey(key).Some?
  {
    if keys != [] {
      TerminalsAreKeys(keys[..|keys| - 1], key);
      assert keys == keys[..|keys| - 1] + [keys[|keys| - 1]];
    }
  }

  /** What is not a terminal's key is counted, not read. */
  method ListTerminals(keys: seq<string>) returns (terminals: seq<string>, skipped: nat)
    ensures terminals == TerminalsAmong(keys)
    ensures |terminals| + skipped == |keys|
    ensures forall key :: key in terminals <==> key in keys && ParseTerminalKey(key).Some?
  {
    terminals, skipped := [], 0;
    for i := 0 to |keys|
      invariant terminals == TerminalsAmong(keys[..i]) && |terminals| + skipped == i
    {
      assert keys[..i + 1][..i] == keys[..i];
      if ParseTerminalKey(keys[i]).Some? {
        terminals := terminals + [keys[i]];
      } else {
        skipped := skipped + 1;
      }
    }
    assert keys[..|keys|] == keys;
    forall key ensures key in terminals <==> key in keys && ParseTerminalKey(key).Some? {
      TerminalsAreKeys(keys, key);
    }
  }

  /** What the reader said of terminal `i` still holds; its body could not be read if and only if that call failed. */
  predicate EntryHolds(c: Codec, objects: Objects, terminals: seq<string>, entries: seq<ReadResult>,
                       failing: set<nat>, first: nat, i: int)
  {
    0 <= i < |entries| && i < |terminals| ==> entries[i] == ReadVia(c, objects, terminals[i], first + i in failing)
  }

  /** One call a terminal, from the `first` on. */
  ghost predicate EntriesHold(c: Codec, objects: Objects, terminals: seq<string>, entries: seq<ReadResult>,
                              failing: set<nat>, first: nat)
  {
    |entries| <= |terminals| && forall i :: EntryHolds(c, objects, terminals, entries, failing, first, i)
  }

  ghost predicate AllStored(objects: Objects, keys: seq<string>) {
    forall key :: key in keys ==> key in objects && ParseTerminalKey(key).Some?
  }

  lemma EntriesStillHold(c: Codec, before: Objects, after: Objects, terminals: seq<string>, entries: seq<ReadResult>,
                         failing: set<nat>, first: nat)
    requires Kept(before, after) && AllStored(before, terminals)
    requires EntriesHold(c, before, terminals, entries, failing, first)
    ensures AllStored(after, terminals) && EntriesHold(c, after, terminals, entries, failing, first)
  {
    forall key | key in terminals ensures key in after {
      assert KeptAt(before, after, key);
    }
    forall i ensures EntryHolds(c, after, terminals, entries, failing, first, i) {
      assert EntryHolds(c, before, terminals, entries, failing, first, i);
      if 0 <= i < |entries| {
        assert KeptAt(before, after, terminals[i]);
      }
    }
  }

  function BlockedAmong(terminals: seq<string>, entries: seq<ReadResult>): seq<string>
    requires |entries| <= |terminals|
  {
    if entries == [] then []
    else
      var n := |entries| - 1;
      var rest := BlockedAmong(terminals, entries[..n]);
      if entries[n].Blocked? then rest + [terminals[n]] else rest
  }

  lemma OneMoreEntry(c: Codec, objects: Objects, terminals: seq<string>, entries: seq<ReadResult>, result: ReadResult,
                     failing: set<nat>, first: nat, call: nat)
    requires EntriesHold(c, objects, terminals, entries, failing, first) && |entries| < |terminals|
    requires call == first + |entries| && result == ReadVia(c, objects, terminals[|entries|], call in failing)
    ensures EntriesHold(c, objects, terminals, entries + [result], failing, first)
  {
    var longer := entries + [result];
    forall i ensures EntryHolds(c, objects, terminals, longer, failing, first, i) {
      assert EntryHolds(c, objects, terminals, entries, failing, first, i);
      if i == |entries| {
        assert first + i == call && longer[i] == result;
      } else if 0 <= i < |entries| {
        assert longer[i] == entries[i];
      }
    }
  }

  lemma OneMoreBlocked(terminals: seq<string>, entries: seq<ReadResult>, result: ReadResult)
    requires |entries| < |terminals|
    ensures BlockedAmong(terminals, entries + [result]) ==
            BlockedAmong(terminals, entries) + if result.Blocked? then [terminals[|entries|]] else []
  {
    assert (entries + [result])[..|entries|] == entries;
  }

  /** How far a page has been read. */
  ghost predicate PageProgress(c: Codec, start: Objects, now: Objects, terminals: seq<string>, entries: seq<ReadResult>,
                               blocked: seq<string>, failing: set<nat>, first: nat)
  {
    && Kept(start, now) && AllStored(now, terminals)
    && EntriesHold(c, now, terminals, entries, failing, first)
    && blocked == BlockedAmong(terminals, entries)
  }

  lemma PageStep(c: Codec, start: Objects, before: Objects, now: Objects, terminals: seq<string>, entries: seq<ReadResult>,
                 blocked: seq<string>, failing: set<nat>, first: nat, call: nat, result: ReadResult)
    requires PageProgress(c, start, before, terminals, entries, blocked, failing, first) && Kept(before, now)
    requires |entries| < |terminals| && call == first + |entries|
    requires result == ReadVia(c, now, terminals[|entries|], call in failing)
    ensures PageProgress(c, start, now, terminals, entries + [result],
                         blocked + (if result.Blocked? then [terminals[|entries|]] else []), failing, first)
  {
    KeptChains(start, before, now);
    EntriesStillHold(c, before, now, terminals, entries, failing, first);
    OneMoreEntry(c, now, terminals, entries, result, failing, first, call);
    OneMoreBlocked(terminals, entries, result);
  }

  /** Every terminal of a page is read, each by one call; one that is blocked is reported and stops none after it. */
  method ReadTerminalPage(bucket: R2Bucket, terminals: seq<string>)
    returns (entries: seq<ReadResult>, blocked: seq<string>)
    requires bucket.Valid() && AllStored(bucket.objects, terminals)
    modifies bucket`objects, bucket`log, bucket`calls, bucket`faults
    ensures bucket.Valid() && old(bucket.log) <= bucket.log && Kept(old(bucket.objects), bucket.objects)
    ensures |entries| == |terminals| && bucket.calls == old(bucket.calls) + |terminals|
    ensures EntriesHold(bucket.s.codec, bucket.objects, terminals, entries, bucket.failing, old(bucket.calls))
    ensures blocked == BlockedAmong(terminals, entries)
  {
    entries, blocked := [], [];
    KeptItself(bucket.objects);
    ghost var first, start := bucket.calls, bucket.objects;
    for i := 0 to |terminals|
      invariant bucket.Valid() && old(bucket.log) <= bucket.log
      invariant |entries| == i && bucket.calls == first + i
      invariant PageProgress(bucket.s.codec, start, bucket.objects, terminals, entries, blocked, bucket.failing, first)
    {
      ghost var before, call := bucket.objects, bucket.calls;
      var result := bucket.ReadTerminal(terminals[i]);
      PageStep(bucket.s.codec, start, before, bucket.objects, terminals, entries, blocked, bucket.failing, first, call, result);
      entries := entries + [result];
      blocked := blocked + if result.Blocked? then [terminals[i]] else [];
    }
  }
}
