# Collection, schedule and publication: a verified model

This project models, in Dafny, the parts of the repository that decide whether collected
financial evidence can be trusted, and proves what they promise of every input and every run:

- the execution lease that keeps two provider logins for one source apart,
- the schedule and maintenance arithmetic across daylight saving,
- the content-addressed, terminal-last write protocol of the shared bucket, its keys, its
  manifest's normal form, its readers and its scan,
- the publication gate of parse runs and the sweep that drives it,
- the JSONC stripper, the ingest-client SQL, the task-graph checks, and exact amounts in minor units.

`dafny verify dfyconfig.toml` checks the whole project.

## How it is laid out

| file | what it holds |
|---|---|
| `Wrappers`, `Texts`, `Sorting`, `Faults` | shared shapes, digits and splitting, code-unit order and sorting by key, counting failed calls |
| `Lease`, `LeaseRuns`, `LeaseHolder` | a call and its row as values; every run of many calls; the callbacks, the statements and a system of many calls in place |
| `Zones`, `Schedule`, `ScheduleReadings`, `Deferrals` | wall clocks; next occurrence, windows, joined deferrals; the same said in clock readings and Gregorian dates; which windows the deferrals cover |
| `Keys`, `Manifest`, `ManifestMeaning`, `ManifestNormal` | key layout; the strict parse; what it accepts and returns, said without it; its normal form |
| `Bucket`, `BucketRuns` | what writers can do to the bucket; what holds in every run |
| `TerminalPlan`, `Checkpoints`, `Outcomes`, `Writer`, `Reader`, `ReaderMeaning`, `Scan` | a plan and its manifest; resuming; what each ending means; the writer, the re-check and the scan, step by step |
| `Versions`, `Gate`, `GateStore`, `GateTally` | version order; the gate's lineage in every interleaving; its tables and the sweep; what the summary counts |
| `Jsonc`, `JsoncComments`, `JsoncTwice`, `IngestConfig`, `IngestOrder`, `TaskGraph`, `TaskPatterns`, `Decimal` | the smaller algorithms |

State that the source updates in place is a class whose methods are proved against functions of
values (`LeaseHolder`, `GateStore`, `Writer`); loops are loops with invariants; what the source
writes as expressions is functions and lemmas.

## What is assumed of the surroundings

- Lease: references are fresh; D1's clock differs from the isolates' by a constant; a timer fires at
  most `lagMs` late; a failed statement has applied or not by the time it fails; a granted claim is
  answered within `claimLatencyMs` of the call's start. `LeaseRuns.Sound` relates these to the clocks.
- Zones: offsets are whole minutes below a day, change at most once in fifteen days, and a change
  never moves the local date back.
- Bucket: objects are never deleted; a single put with `etagDoesNotMatch: "*"` is create-only and its
  declared digest is checked; completing a multipart upload replaces whatever is there; other writers
  act between any two calls. What the bucket held beforehand is arbitrary.
- Failures: any call may fail, before or after it took effect. Which ones do (the bucket's calls, the
  publications of a sweep, the release statements) is an arbitrary set given beforehand, so a method
  can count its failures but not choose them.
- SHA-256 does not collide on the byte strings of a run, and the canonical encoder has a left inverse
  (`TerminalPlan.Dependable`); `Date` is two uninterpreted functions.
- Property names are an enumeration with one case for every other name; texts are sequences of code units.

## What the proofs found

- The lease excludes only while claims are answered and timers fire in time. With the shipped clocks it
  excludes in every run when max(180 000, claim latency) + 2 * timer lag is at most 510 000 ms, and, unless
  D1's clock is behind the isolates', only then (`ShippedLeaseExcludesIff`): the first heartbeat tick comes a period after the claim *returns*, and a
  late force stop leaves a stopped holder running into the next call.
- Finding when collection may resume follows a thousand window ends and does not look at the last: with
  exactly a thousand windows back to back it fails although the next instant is free
  (`ThousandWindowsAreRefused`). It fails exactly when the instant 999 ends lead to is blocked.
- A sweep that stops between inserting a run and publishing it leaves that run unpublished for good,
  because every later sweep finds it and skips it (`UnpublishedRunSticks`, `RunParsers`); when the publication itself
  throws, the run is counted both as parsed and as an error. The pointer is the newest success exactly
  when a newest success was published (`PointerIsNewestIff`).
- Any segment that is no number makes versions compare in a cycle (`NoNumberMakesCycle`): the versions
  built from numbers and further segments are ordered exactly when each of these is a number (`OrderedIff`).
- A writer can report a conflict although its own terminal is stored: when the stored body cannot be
  read just then (`UnreadableBodyConflicts`), or exactly when its terminal is over the reader's 8 MiB
  (`OwnTerminalIsHeldIff`). Every other conflict means that another plan won (`ConflictNeedsRival`).
- Joined deferrals reach past the horizon: with daily windows of 12:00-18:00 and 18:00-20:00 and a
  horizon of 13 hours from midnight, 19:00 is joined although the window that holds then does not count
  (`WindowPastTheHorizonIsJoined`). The unions cover exactly the windows that hold at the start, are dated,
  or start within the horizon if and only if nothing takes over where such a window ends or a start is
  enumerated (`UnionsAreCountedIff`).
- Stripping a stripped JSONC text changes nothing exactly when, comments aside, no two commas outside
  strings stand before one closer (`StrippedTwiceIff`); `[1,,]` needs two passes (`DoubledComma`).
- A client whose display name is all spaces passes the parse but is refused by the table's check, which
  stops the script there (`BlankNameIsRefused`).

## Model

| member | source | states |
|---|---|---|
| LeaseRuns.MutualExclusion | packages/collection/src/schedule-lease.ts:3-24 | in every run two calls the operator did not free are never both claimed, unsettled and not force-stopped, and such a call holds the row |
| LeaseRuns.TickFreesOnlyStopped | services/processor/src/schedule-store.ts:168-204 | the ten-minute tick only ever frees a lease whose holder has stopped for good |
| LeaseRuns.HolderBounds | packages/collection/src/schedule-lease.ts:148-200 | a live holder aborts within max(heartbeatLossMs, claim latency) + heartbeatMs of its last acknowledged beat and is over graceMs later; the stored heartbeat is never older than that beat and never stale |
| LeaseRuns.UnsettledCallHolds | packages/collection/src/schedule-lease.ts:209-223 | an unsettled call nobody freed holds the row, and an unheld row has no start and no heartbeat |
| LeaseRuns.LeaseEndsByItsOwner | packages/collection/src/schedule-lease.ts:19-24 | over any continuation a lease that is held no longer was ended by the tick, the operator, or a release statement of its own call |
| LeaseRuns.ReleasedIsGone | packages/collection/src/schedule-lease.ts:74-95 | once a release answered true its reference is gone in every later state |
| LeaseRuns.HistoryKept | packages/collection/src/schedule-lease.ts:164-176 | an abort's reason stays fixed, force stops are never taken back, and nothing is aborted or forced after settling |
| LeaseRuns.ForceStopOnce | packages/collection/src/schedule-lease.ts:164-176 | force stop runs at most once, with the abort's code, at least graceMs after the abort |
| LeaseRuns.ReleaseAttempts | packages/collection/src/schedule-lease.ts:74-95 | in every run a call sends at most three releases, none before its action settled; it ends unreleased only after three, and unless forced it returns only after its attempts ended or its claim was refused |
| LeaseRuns.RefusedWroteNothing | packages/collection/src/schedule-lease.ts:132-146 | in every run a call that ends without sending a release has a claim that ran and was not granted |
| LeaseRuns.AbortsIff | packages/collection/src/schedule-lease.ts:164-200 | a call aborts exactly at its deadline, at an answer that refreshed no row, or when a tick or a failed heartbeat finds the last acknowledged beat too old |
| LeaseRuns.LostLeaseStops | packages/collection/src/schedule-lease.ts:189-193 | a heartbeat that finds the lease gone aborts its call with that reason, and in every later state the call is over after the grace period and the timer lag |
| LeaseRuns.AcknowledgedBeatCounts | packages/collection/src/schedule-lease.ts:185-194 | an acknowledged heartbeat counts from its send time in every later state |
| LeaseRuns.BeatsAreWritten | packages/collection/src/schedule-lease.ts:152-156 | the last beat a call goes by is its claim's or one that was written |
| LeaseRuns.InvAlways | packages/collection/src/schedule-lease.ts:111-236 | one invariant relating every call, statement under way and the row survives every event order |
| LeaseRuns.ShippedLeaseExcludesIff | packages/collection/src/schedule-lease.ts:36-47 | with the shipped clocks exclusion holds in all runs if max(180 000, claim latency) + 2 * lag <= 510 000 ms, whatever the skew, and only then unless the database clock is behind |
| LeaseHolder.LeaseSystem.Run | packages/collection/src/schedule-lease.ts:111-236 | many calls' objects driven through any order of callbacks, statements, ticks and crashes: afterwards at most one of them is a live holder and it holds the row, nobody the tick freed is live, no call took back its abort, force stop or end, and each call told that its lease is gone has aborted for that and is over after its grace period |
| LeaseHolder.LeaseTable.ReleaseOwnLease | packages/collection/src/schedule-lease.ts:74-95 | true exactly when one of the next three statements is answered, and then it stopped there; otherwise all three failed; with other writers in between, any attempt that ran leaves the own reference gone |
| Zones.At | packages/collection/src/schedule-model.ts:199-216 | none exactly when no instant reads the wall time, otherwise the earliest instant that does |
| Zones.OffsetIsSampled | packages/collection/src/schedule-model.ts:203-207 | the offset at any instant that reads the time is one of the three sampled a day apart |
| Zones.SkippedNeedsChange | packages/collection/src/schedule-model.ts:214 | a wall time is skipped only if the offset changes between the day before and the day after |
| Zones.NotSkippedTwice | packages/collection/src/schedule-model.ts:241-249 | no wall time is skipped on two dates a week apart |
| Zones.WallIsMonotone | packages/collection/src/schedule-model.ts:199-216 | a later reading never names an earlier instant, although a clock set back reads minutes twice |
| Zones.ChangeZoneIsValidIff | packages/collection/src/schedule-model.ts:103 | a single change on a whole minute meets the zone assumptions exactly when the local date does not go back |
| Zones.FixedZoneIsValid | packages/collection/src/schedule-model.ts:103 | a zone without daylight saving meets the zone assumptions |
| Schedule.NextNominal | packages/collection/src/schedule-model.ts:231-250 | for a valid pattern the least nominal instant after the given one, never unavailable; an invalid pattern is refused |
| Schedule.FiresWithinTwoWeeks | packages/collection/src/schedule-model.ts:241-248 | some allowed weekday of the next two weeks fires, daylight saving or not |
| Schedule.WindowEnd | packages/collection/src/schedule-model.ts:257-271 | looking back over eight start dates misses no window: none exactly when no window holds, otherwise the end of one that does |
| Schedule.EndIsUnique | packages/collection/src/schedule-model.ts:261-267 | windows of one rule that hold at the same instant end together, so the end found first is the only one |
| ScheduleReadings.CoversIffBetweenReadings | packages/collection/src/schedule-model.ts:257-271 | a rule in force covers exactly the instants between a reading that opens it and the next reading of its end, on the next date if the end is the earlier time |
| ScheduleReadings.FixedZoneCoversIff | packages/collection/src/schedule-model.ts:257-271 | without daylight saving these are the instants whose local reading lies between the two |
| ScheduleReadings.NominalIffReading | packages/collection/src/schedule-model.ts:241-248 | a daily pattern fires exactly at the instants named by its time on an allowed weekday |
| Schedule.HoldingWindowIsRecent | packages/collection/src/schedule-model.ts:261-267 | a recurring window that holds started on one of the last eight local dates |
| Schedule.MonthlyBaseIsNth | packages/collection/src/schedule-model.ts:252-256 | the monthly rule starts on the nth such weekday of its month |
| ScheduleReadings.MonthlyStartsIff | packages/collection/src/schedule-model.ts:252-256 | a monthly rule starts exactly where its base day is the weekday in the nth week of dates |
| ScheduleReadings.DateOfDay | packages/collection/src/schedule-model.ts:254-255 | the kth day of every month from January 1970 has date k |
| ScheduleReadings.YearsAreGregorian | packages/collection/src/schedule-model.ts:254-255 | the months add up to 365 days a year and the Gregorian leap days |
| ScheduleReadings.KnownDates | packages/collection/src/schedule-model.ts:243-255 | 1 January 1970 and 29 February 2024 are Thursdays with these dates |
| Schedule.AfterMaintenance | packages/collection/src/schedule-model.ts:272-283 | an answer is the least instant from the given one on outside every applying window; it fails exactly when the instant that following 999 latest ends leads to is blocked |
| Schedule.ThousandWindowsAreRefused | packages/collection/src/schedule-model.ts:272-283 | of back-to-back windows a thousand are refused although the instant after them is free, and 999 are not |
| Schedule.JoinedDeferrals | packages/collection/src/schedule-model.ts:300-336 | unions are ordered, disjoint, blocked throughout, start at enumerated starts, end free up to the cap, and miss no blocked start |
| Schedule.UnionsAreTheChains | packages/collection/src/schedule-model.ts:300-336 | within the cap, an instant is in a union exactly when it is blocked without a gap since an enumerated start |
| Schedule.WindowsAreJoined | packages/collection/src/schedule-model.ts:291-298 | every window that holds at the start, is dated, or starts within the horizon is covered |
| Deferrals.UnionsAreCountedIff | packages/collection/src/schedule-model.ts:291-336 | within the cap the unions cover exactly the windows that hold at the start, are dated, or start within the horizon, if and only if at no end of such a window and no enumerated start another window takes over |
| Deferrals.WindowPastTheHorizonIsJoined | packages/collection/src/schedule-model.ts:291-336 | two daily windows and a horizon for which an instant of a window that does not count is joined |
| Schedule.UnionEndsAtNextFree | packages/collection/src/schedule-model.ts:326-334 | a union within the cap ends exactly where AfterMaintenance of its start does |
| Schedule.LongestDeferral | packages/collection/src/schedule-model.ts:352-364 | up to the cap the exact maximum deferral of a chained instant; above it, some chain does last longer |
| Keys.KeysAreDistinct | packages/collection/src/keys.ts:84-110 | object, terminal, report and projection keys are pairwise disjoint and injective in their arguments |
| Keys.ParseInvertsTerminalKey | packages/collection/src/keys.ts:112-131 | the parser answers a pair exactly when the builder makes that key of it, so nothing on every other text |
| Keys.ParsesTerminalsOnly | packages/collection/src/keys.ts:112-131 | of all the layout's keys the parser accepts exactly the terminals |
| Keys.KeysAreSafe | packages/collection/src/keys.ts:8-12 | every segment of every key is a safe name, and no key is longer than 1024 |
| Manifest.ParseTerminalManifest | packages/collection/src/manifest.ts:423-540 | the checks in the source's order and with its codes, loops included, give what Parsed says |
| ManifestMeaning.ParsedIff | packages/collection/src/manifest.ts:423-540 | the parse returns a manifest exactly when that manifest is lawful and the input says it: every property under its name, every list entry by entry in some order, and nothing else |
| ManifestMeaning.RefusedIff | packages/collection/src/manifest.ts:423-540 | an input is refused exactly when it says no lawful manifest |
| ManifestNormal.ParsedIsNormal | packages/collection/src/manifest.ts:418-422 | the parse is idempotent on its own output, however that is written back |
| ManifestNormal.OrderIsForgotten | packages/collection/src/manifest.ts:418-422 | reordering artifacts, units, ranges, reports, transformations or requested unit keys changes neither acceptance nor the manifest |
| ManifestNormal.ArtifactsAreAddressed | packages/collection/src/manifest.ts:283-286 | accepted artifacts point to their own digest's key and come in strictly ascending key order |
| ManifestNormal.PartialNeverReadsAsSuccess | packages/collection/src/manifest.ts:502-511 | an error code exactly without success, and complete coverage only with it |
| Sorting.SortByIsCanonical | packages/collection/src/manifest.ts:437 | sorting by distinct keys forgets the order the entries came in |
| Sorting.BeforeIff | packages/collection/src/manifest.ts:437 | one key sorts before another when it is a proper beginning of it or has the smaller code unit where they first differ |
| Texts.DecimalText | packages/collection/src/verify.ts:48-50 | the written size is the decimal numeral of the size |
| Bucket.CompletionKeeps | packages/collection/src/writer.ts:249-282 | completing an upload over a stored object writes the bytes already there |
| Bucket.InvAlways | packages/collection/src/writer.ts:1-17 | in every run each key holds what it held before, or an object under the digest of its own bytes, or a complete terminal |
| BucketRuns.NothingIsLost | packages/collection/src/writer.ts:13-17 | nothing stored is lost or replaced by other bytes |
| BucketRuns.TerminalsNeverChange | packages/collection/src/writer.ts:13-17 | an existing terminal is never changed |
| BucketRuns.StoredTerminalIsComplete | packages/collection/src/writer.ts:8-11 | in every interleaving, with lost answers and crashes, every artifact a stored terminal names is stored with its digest and size |
| BucketRuns.OneWriteWins | packages/collection/src/writer.ts:374-412 | exactly one write of the run put the stored terminal |
| BucketRuns.ReaderFinds | packages/collection/src/reader.ts:99-150 | the reader finds a terminal this package wrote, whole, unless it is over the limit |
| ReaderMeaning.FoundIff | packages/collection/src/reader.ts:99-150 | a terminal is found exactly when its bytes fit, parse as the manifest whose key this is, and hash to that manifest's digest and the declared one |
| ReaderMeaning.FoundIsCanonical | packages/collection/src/reader.ts:135-141 | whatever was stored, what is found has the canonical bytes of its manifest |
| ReaderMeaning.VerifiesIff | packages/collection/src/verify.ts:28-50 | an object passes exactly when some digest vouches for it and nothing it says of itself disagrees |
| BucketRuns.OneDigestWins | packages/collection/src/reader.ts:99-150 | what the reader finds at a run's key it finds for ever |
| BucketRuns.OwnDigestIffNoRival | packages/collection/src/writer.ts:318-339 | the stored terminal is this manifest's exactly when no other manifest's terminal was put |
| TerminalPlan.PlannedManifestDescribes | packages/collection/src/writer.ts:137-153 | a plan's manifest is normal and its artifacts are the plan's, each under its own key |
| TerminalPlan.DependableIsLawful | packages/collection/src/digest.ts:22-31 | a decodable encoder makes every manifest read back as itself, the law the bucket's theorems rest on |
| Checkpoints.CheckpointPartitions | packages/collection/src/writer.ts:173-191 | a checkpoint splits the run's artifacts in order into the persisted and the pending |
| Checkpoints.TerminalListedIff | packages/collection/src/writer.ts:173-191 | the terminal's key is among the persisted keys exactly when it was written, and so is every finished artifact's |
| Outcomes.SuccessSeals | packages/collection/src/writer.ts:318-424 | a success means the reader finds this terminal, every named object passes, and no other terminal ever was put |
| Outcomes.ConflictNeedsRival | packages/collection/src/writer.ts:289-298 | a conflict other than an unreadable body means another plan's terminal won |
| Outcomes.UnreadableBodyConflicts | packages/collection/src/writer.ts:289-298 | over a sealed bucket without a rival the conflict of an unreadable body is a lawful ending |
| Outcomes.OwnTerminalIsHeldIff | packages/collection/src/reader.ts:99-150 | a writer that finds its own terminal is told so exactly up to the limit of 8 MiB, and above it, faults aside, meets the conflict of a blocked terminal |
| Outcomes.OutcomeIsDecided | packages/collection/src/writer.ts:304-424 | without faults and with honest bodies a run succeeds exactly when no rival terminal was put, and conflicts otherwise |
| Outcomes.WrongBodyEndsTheRun | packages/collection/src/writer.ts:341-367 | no run gets past a body of another size, nor of another digest if it hashes bodies or the body is in parts; without a fault it ends there, for that reason, with nothing written for it |
| Outcomes.SealLasts | packages/collection/src/writer.ts:13-17 | a sealed run stays sealed |
| Writer.R2Bucket.PutIfAbsent | packages/collection/src/writer.ts:222-229 | a create-only put with other writers and lost answers: accepted, refused or thrown, and what the bucket then holds |
| Writer.R2Bucket.PutMultipart | packages/collection/src/writer.ts:249-282 | the completed object is the parts in order under the checked digest; it fails exactly when one of the calls it made does |
| Writer.R2Bucket.PutArtifact | packages/collection/src/writer.ts:193-247 | success leaves a verified object, marked as reused exactly when nothing was written for it; a key already there is reused; failure needs a failing call among those made, an earlier object or a wrong body |
| Writer.R2Bucket.PersistArtifacts | packages/collection/src/writer.ts:341-372 | stops at the first artifact that cannot be stored, a wrong size or digest named as such before anything is written for it, a fault only if a call made did fail; all before it verified, their bodies as checked, and exactly the new ones written |
| Writer.R2Bucket.ReadTerminal | packages/collection/src/reader.ts:99-150 | the reader's branch chain over the bucket as it is after the one call made, unreadable for a failing call's body only |
| Writer.R2Bucket.PersistPlanned | packages/collection/src/writer.ts:304-424 | every ending is justified by the bucket it was reached in, the calls that failed and the bodies; with a terminal there at the start nothing is written, and it is already persisted exactly when it holds this digest and the read does not fail |
| Writer.R2Bucket.PersistRun | packages/collection/src/writer.ts:304-424 | refuses exactly the plans without a manifest, before writing; a success within the reader's limit is sealed; with honest bodies and no failing call it succeeds exactly when no rival was put; wrong bodies, and a terminal there at the start, decide the ending |
| Reader.VerifyReferencedObjects | packages/collection/src/reader.ts:217-262 | ok, allowed a problem, exactly when every object checks out; each reported problem was there with its reason; allowed none, it looks at nothing |
| Reader.SuccessIsForEver | packages/collection/src/reader.ts:99-262 | after a success every later state has the terminal found and its objects without a problem |
| Scan.WalkMeetsEachOnce | packages/collection/src/reader.ts:1-9 | a finished walk meets every terminal stored when it began, on exactly one page, whatever is written meanwhile |
| Scan.ListTerminals | packages/collection/src/reader.ts:60-86 | a page's terminals in order, everything else counted |
| Scan.ReadTerminalPage | packages/collection/src/reader.ts:176-189 | one read for each terminal of the page, each entry the answer of its own call and unreadable only if that call fails, the blocked ones reported, and what was read still holds at the end |
| Versions.CompareVersions | experiments/observation-pipeline-local/src/store.ts:509-523 | the loop computes the comparison, whole strings at the first segment that is no number |
| Versions.CompareMeaning | experiments/observation-pipeline-local/src/store.ts:509-523 | numeric versions compare by their first differing number, missing segments as zero |
| Versions.CompareIsAntisymmetric | experiments/observation-pipeline-local/src/store.ts:509-523 | swapping any two versions negates the comparison |
| Versions.CompareIsTransitive | experiments/observation-pipeline-local/src/store.ts:509-523 | the order of numeric versions is transitive |
| Versions.OrderedIff | experiments/observation-pipeline-local/src/store.ts:509-523 | the versions built from numbers and a set of further segments are transitively ordered exactly when each of those segments is a number |
| Versions.NoNumberMakesCycle | experiments/observation-pipeline-local/src/store.ts:509-523 | with any segment that is no number three versions compare in a cycle |
| Gate.GateAlwaysConsistent | experiments/observation-pipeline-local/src/store.ts:672-760 | after any inserts and publications the pointer is live, published live runs compare equal to it, links lead to newer runs, the log replays to the pointers |
| Gate.LineageEndsLive | experiments/observation-pipeline-local/src/store.ts:672-721 | following the superseded links ends at a live run no older |
| Gate.PointerNeverGoesBack | experiments/observation-pipeline-local/src/store.ts:723-760 | the published version of a key never decreases |
| Gate.PointerIsNewestIff | experiments/observation-pipeline-local/src/parse.ts:71-100 | with inserting and publishing in two steps, the pointer is a newest success exactly when a newest success was published |
| Gate.AllPublishedPointsToNewest | experiments/observation-pipeline-local/src/store.ts:672-760 | once all successes are published the highest version is current and exactly its equals are live |
| Gate.OrderDoesNotMatter | experiments/observation-pipeline-local/src/store.ts:672-760 | with distinct versions the final pointer does not depend on the order of publication |
| Gate.UnpublishedRunSticks | experiments/observation-pipeline-local/src/parse.ts:59-100 | a reachable state with a run inserted and not published: the next sweep finds it, and the pointer is behind it |
| GateStore.PublicationStore.FindParseRun | experiments/observation-pipeline-local/src/store.ts:489-503 | finds a success of the artifact, parser and version exactly if there is one |
| GateStore.PublicationStore.InsertParseRun | experiments/observation-pipeline-local/src/store.ts:525-553 | adds the row, unless it would be a second success of one version |
| GateStore.PublicationStore.SupersedeOlderParseRuns | experiments/observation-pipeline-local/src/store.ts:672-721 | links the run under the newest live newer one, or every live older one under it, and counts those |
| GateStore.PublicationStore.PublishParseRun | experiments/observation-pipeline-local/src/store.ts:723-760 | lineage, pointer and event as the gate's value model says, the invariant kept |
| GateStore.PublicationStore.RunParser | experiments/observation-pipeline-local/src/parse.ts:50-113 | one pair's exact effect: what is inserted and published, what the summary gains; it publishes each run due, and throws exactly when that publication fails |
| GateStore.PublicationStore.RunParsers | experiments/observation-pipeline-local/src/parse.ts:35-116 | every accepted pair is counted once, and once more when its publication threw, the blocked ones exactly; every owed success is there; runs left unpublished stay so, and with none before or by the sweep every pointer names a newest success; a sweep over settled artifacts changes nothing |
| GateTally.TallyCountsRows | experiments/observation-pipeline-local/src/parse.ts:50-113 | parsed, errors and superseded count the successes, the failures and the overtaken rows that a pair leaves in the table; observations and skipped what was parsed and what was there |
| Jsonc.StripJsonc | scripts/jsonc.ts:11-54 | one pass equals deleting comments outside strings and then each comma before a closing bracket, on every text |
| Jsonc.JsonIsUntouched | scripts/jsonc.ts:1-10 | every text of the JSON grammar of sections 2 and 7 of RFC 8259 is left as it is |
| JsoncComments.StrippedIsTheJson | scripts/jsonc.ts:11-54 | a JSON text with comments in its white space, trailing commas and perhaps a last line comment is stripped to the JSON text without them |
| JsoncComments.LineCommentIsDropped | scripts/jsonc.ts:36-39 | a line comment goes up to its line feed, which stays |
| JsoncComments.BlockCommentIsDropped | scripts/jsonc.ts:40-44 | a block comment goes up to its first star and slash, which go too |
| JsoncComments.OpenBlockIsDropped | scripts/jsonc.ts:40-44 | a block comment that nothing ends goes up to the end of the text |
| JsoncTwice.StrippedTwiceIff | scripts/jsonc.ts:40-50 | a second pass changes nothing exactly when, comments aside, no two commas in a row outside strings stand before a closer |
| IngestConfig.ParseIngestClientsConfig | scripts/config-bootstrap.ts:75-121 | accepts exactly the declarations with valid ids, names and no duplicate client or route |
| IngestConfig.RouteKeyIsInjective | scripts/config-bootstrap.ts:102-106 | joining producer and source with a space identifies the route |
| IngestConfig.RenderIngestClientsSql | scripts/config-bootstrap.ts:132-188 | the loops push exactly the script's statements |
| IngestOrder.ScriptIsInOrder | scripts/config-bootstrap.ts:132-188 | the script names each producer once in ascending order and each route in order |
| IngestConfig.ScriptRuns | scripts/config-bootstrap.ts:132-188 | the script runs through exactly when absent clients have a name that is not blank and every route's source is known |
| IngestConfig.FirstRunConverges | scripts/config-bootstrap.ts:132-188 | one run leaves every declared client and route with its declared flag and every undeclared row as it was |
| IngestConfig.SecondRunChangesNothing | scripts/config-bootstrap.ts:132-188 | after one run every statement is a no-op |
| IngestConfig.BlankNameIsRefused | packages/storage-d1/migrations/core/0001_initial.sql:15-58 | a display name of spaces passes the parse and is refused by the table |
| TaskGraph.DependencyNames | tasks/_lib/check-manifests.ts:277-299 | exactly the task names a reference means, wildcards expanded |
| TaskPatterns.MatchesIff | tasks/_lib/check-manifests.ts:277-299 | a name matches exactly when it can be cut into texts that its pattern's pieces stand for |
| TaskPatterns.PatternIsRead | tasks/_lib/check-manifests.ts:281-297 | a pattern is its plain texts with its wildcards between them |
| TaskPatterns.RelativeIsOwn | tasks/_lib/check-manifests.ts:278-281 | a relative reference names a task of its owner's namespace, an absolute one stands as it is |
| TaskGraph.PlainPatternIsItself | tasks/_lib/check-manifests.ts:277-299 | a reference without wildcards means the one task it spells |
| TaskGraph.LastOfNameCounts | tasks/_lib/check-manifests.ts:322-340 | of several records of one name the graph has the last |
| TaskGraph.DependencyClosure | tasks/_lib/check-manifests.ts:302-319 | terminates with exactly the least set holding the start and closed under both kinds of dependency |
| TaskGraph.AggregateCheckViolations | tasks/_lib/check-manifests.ts:322-340 | a violation for exactly each required task the aggregate misses and each recursing task it reaches, in the graph of the records |
| TaskGraph.GeneratedInputViolations | tasks/_lib/check-manifests.ts:364-409 | exactly the missing producers and the input tasks that do not reach theirs, in the graph of the records; none exactly when all are well |
| Decimal.ShownAmountIsExact | apps/web/src/report-display.tsx:84-99 | a shown amount times ten to the scale is the coefficient times ten to the exponent, for either sign |
| Decimal.NothingShownIff | apps/web/src/report-display.tsx:84-99 | nothing is shown exactly for an unknown unit, an amount that is no whole number of minor units, or a zero with too many places |
| Decimal.CanonicalAmountShownIff | packages/domain/src/values.ts:71-87 | for a canonical decimal of a known unit the scale alone decides |

## Left out

- LeaseRuns.ShippedLeaseExcludesIff: with a database clock behind the isolates' the bound is shown to suffice, not to be needed: the tick then applies its longer rule until a heartbeat has caught up with the start.
- Schedule.JoinedDeferrals: recurring windows in the horizon's last hours whose local date lies past it are not enumerated, as in the source; dates are unbounded integers, so the range limits of `Date` are absent.
- Versions.CompareVersions: segments are numbers only as digit strings; other numerals `Number` accepts (signs, exponents, blanks) and its double rounding are not modelled.
- IngestConfig.ParseIngestClientsConfig: it takes typed entries; the checks that records, arrays and flags are such, and that no key is unknown, are left out.
- IngestConfig.RenderIngestClientsSql: statements are an abstract syntax with a table semantics; SQL quoting is left out, and `localeCompare` is code-unit order.
- GateStore.PublicationStore.RunParsers: observations are a count, and issues, coverage claims and blobs are left out.
- Manifest.ParseTerminalManifest: key validity errors keep their code inside `KeyProblem`; error texts are constructors.
- Writer.R2Bucket.PersistRun: a rejected `head` or `get` ends the call like a crash, which every theorem about runs already allows; HTTP metadata and the terminal's descriptive metadata are not kept.
- Scan.ListTerminals: the limit's clamping and the opaque cursor are not modelled; a cursor is the last key of its page.
- The lease's operator release is an event that frees the row; that it eventually happens, and every other liveness claim about timers, is not stated.
- `services/processor` beyond the expiry of stale leases, the SQL views of `queries.ts`, ledger rendering, the workers, the pages and the browser automation: input, output and platform plumbing.
- Single-branch validators, label maps and the other checks of `check-manifests.ts`: they would add easy members only.
