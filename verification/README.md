# Verified model of MEDRE's campaign harness, registry and install planner

MEDRE bridges chat transports through adapters. This project models, in Dafny,
the parts of the repository whose correctness is an argument rather than a
reading of one body, and proves what they promise:

- `Workload`, `WorkloadSafety`, `WorkloadResults`: the mixed SQLite workload as
  a transition system. Striding producers stage rows and announce them with a
  generation counter, claimers drain them and decide when to stop. A step is
  the code between two `await`s. The only assumption about storage is that a
  claim atomically takes at most 16 unclaimed rows and is empty only when none
  remain. `Percentile` is the nearest-rank figure of its report.
- `OwnedInterface`: the hand-off of a client between a native thread, a
  cancellable caller and a late callback.
- `PeerSupervisor`: a peer's reader task, its waiters on one shared event, and
  the verdicts of `crash` and `stop`.
- `Utf8`, `ByteBudget`: encode, cut, decode with errors ignored, with the
  encoding of section 3 of RFC 3629.
- `Framing`, `SnapshotDigest`: the length-framed digest input written by the
  snapshot recorder and again by the checker. The hash is any function.
- `YamlText`, `YamlWriter`, `YamlReader`, `YamlRoundTrip`: the redacted-config
  printer, and a reader for its output by sections 5.7, 7.3.1, 7.4, 8.2.2 and 10.3.2
  of YAML 1.2.2.
- `AdapterRegistry`, `AdapterDiscovery`: the strict registry constructor and
  the discovery that quarantines broken and conflicting providers.
- `HtmlWitness`: the stack machine that records styled ranges of inline HTML.
- `Evidence`, `Coverage`: what a passing durable-evidence check and a passing
  campaign analysis imply.
- `Requirements`, `InstallPlanner`, `SelfUpgrade`, `AdapterReset`: the rewriting
  of the recorded tool request by install, remove, upgrade and reset. A requirement is a name as
  written, its extras and the rest of its text.
- `Results`, `Counting`, `Ordering`: optional values and refusals, cardinality,
  sorting and string-order facts.

`dafny verify dfyconfig.toml` checks the whole project.

Where a promise is false of the code, the model keeps the code, shows an input
and proves the exact condition:

- The printed configuration does not always read back: a key such as `7` or
  `null` is left unquoted, a key of more than 1024 characters is printed as a
  simple key, an empty sub-mapping prints as a bare key, and control characters
  other than newline, carriage return and tab stand raw
  (`YamlRoundTrip.RoundTrip`, with four counterexamples). The docstring of the
  escape function promises a round trip of the value only for those three.
- A log can hold two records of kind `intentional_crash`, because the child
  chooses the kind of its own records (`PeerSupervisor.ForgedCrashKind`).
  `PeerSupervisor.CrashKindUnique` counts them exactly in every run; at most one
  is written by `crash`.
- Installing by an alias and removing by the same alias restores the request
  only if the package is new and the alias is not itself the name of an
  installed package (`InstallPlanner.InstallThenRemove`, with the input of
  `InstallPlanner.AliasNamesAnother`). Removing by distribution name needs only
  the first (`InstallPlanner.InstallThenRemoveByName`).

## Model

| member | source | states |
|---|---|---|
| `WorkloadSafety.StrideGap` | scripts/measure_mixed_sqlite.py:61 | The next ordinal of a stride after `at` skips no ordinal of the same residue: strides partition the events. |
| `WorkloadSafety.ProductionStep` | scripts/measure_mixed_sqlite.py:59-91 | Every step keeps: admitted, created and announced are exactly the ordinals and rows behind each producer's position, and the generation counts the announced rows. |
| `WorkloadSafety.ProductionCreate` | scripts/measure_mixed_sqlite.py:80-91 | A row about to be created does not exist yet. |
| `WorkloadSafety.OwnershipStep` | scripts/measure_mixed_sqlite.py:100-111 | Every step keeps: a claimed row is recorded or in exactly one claimer's batch, never both, and the per-worker counts add up to the recorded rows. |
| `WorkloadSafety.ViewsStep` | scripts/measure_mixed_sqlite.py:93-121 | Every step keeps each claimer's view sound: an empty claim at the current generation means that everything announced is claimed, and a wake-up is pending exactly when the awaited predicate holds. |
| `WorkloadSafety.RunInv` | scripts/measure_mixed_sqlite.py:59-142 | Every state of every run satisfies the three invariants. |
| `WorkloadResults.ReturnMeansDrained` | scripts/measure_mixed_sqlite.py:112-114 | A claimer returns only when every row of every event exists and none is unclaimed. |
| `WorkloadResults.ExactlyOnce` | scripts/measure_mixed_sqlite.py:135-142 | When all claimers have returned, the recorded rows are exactly events × fanout, the worker counts sum to that, every event is stored, and the closing check passes. |
| `WorkloadResults.NoDuplicates` | scripts/measure_mixed_sqlite.py:106-111 | The duplicate-ownership error is never raised; no row is created twice or claimed twice. |
| `WorkloadResults.NoLostWakeup` | scripts/measure_mixed_sqlite.py:115-119 | A claimer parked with no wake-up pending has missed nothing: production is not over, all announced rows are claimed, and any unclaimed row is one whose producer is about to announce it. |
| `WorkloadResults.NoDeadlock` | scripts/measure_mixed_sqlite.py:93-133 | A reachable state has an enabled step if and only if not every claimer has returned. |
| `WorkloadResults.StepDecreases` | scripts/measure_mixed_sqlite.py:93-133 | Every step of every scheduler lowers one global measure. |
| `WorkloadResults.RunsAreBounded` | scripts/measure_mixed_sqlite.py:59-133 | No run has more than a fixed number of steps, computed from the four sizes. |
| `WorkloadResults.MaximalRunsComplete` | scripts/measure_mixed_sqlite.py:121-142 | A run that cannot be extended ends with all claimers returned, all rows recorded, the check passed, and samples for every percentile. |
| `WorkloadResults.ClaimCounts` | scripts/measure_mixed_sqlite.py:97-121 | At most rows + 2 empty claims per claimer; at most `rows` non-empty claims in all and, at the end, at least a sixteenth of the rows. |
| `WorkloadResults.EmptyClaimsAdvance` | scripts/measure_mixed_sqlite.py:97-121 | The generations one claimer observes on empty, not-yet-finished claims strictly increase. |
| `Percentile.Compute` | scripts/measure_mixed_sqlite.py:23-25 | The result is, rounded to thousandths, a sample with at least `pct` percent of the samples at or below it and fewer strictly below. |
| `Percentile.NearestRankIsLeast` | scripts/measure_mixed_sqlite.py:23-25 | No smaller value has that share of the samples at or below it. |
| `Percentile.RoundedFaithfully` | scripts/measure_mixed_sqlite.py:25 | Rounding moves a figure by at most half a thousandth and never swaps two figures. |
| `Percentile.PercentilesAreOrdered` | scripts/measure_mixed_sqlite.py:23-25 | A higher percentile of the same samples is never displayed below a lower one. |
| `OwnedInterface.RunInv` | scripts/adapter_campaign/meshtastic_connection.py:99-165 | In every interleaving of thread, caller, task cancellation and callback, each phase knows who owns the client. |
| `OwnedInterface.NeverClosedTwice` | scripts/adapter_campaign/meshtastic_connection.py:112-165 | At every moment at most one close, none for a returned client, and the missing-client error is never raised. |
| `OwnedInterface.ReturnedStaysOpen` | scripts/adapter_campaign/meshtastic_connection.py:140-144 | A client handed to the caller stays open for the rest of the run. |
| `OwnedInterface.SettledIsAccountedFor` | scripts/adapter_campaign/meshtastic_connection.py:120-165 | Once thread, caller and callback are through, a constructed client was returned and not closed, or closed exactly once. |
| `OwnedInterface.MaximalRunsSettle` | scripts/adapter_campaign/meshtastic_connection.py:137-165 | Every run has at most 13 steps, and one that only an outside cancellation could extend has settled with nothing leaked. |
| `PeerSupervisor.LogStep` | scripts/adapter_campaign/process.py:52-73 | Every step keeps: the log holds the reader's records, and a successful crash closes it with its own record on a clean, finished stream. |
| `PeerSupervisor.WaiterStep` | scripts/adapter_campaign/process.py:88-99 | Every step keeps each waiter's view: parked without a wake-up means all records scanned, found means earliest match. |
| `PeerSupervisor.NoMissedEvidence` | scripts/adapter_campaign/process.py:88-97 | A parked waiter with no pending wake-up has scanned every record, none matches, and neither a failure nor the end of the stream was missed. |
| `PeerSupervisor.FirstMatch` | scripts/adapter_campaign/process.py:94-96 | The index of the first record that satisfies the predicate, or none if no record does. |
| `PeerSupervisor.FoundStaysEarliest` | scripts/adapter_campaign/process.py:52-99 | A returned record is the earliest match of the append-only log, then and in every later state. |
| `PeerSupervisor.LogIsBounded` | scripts/adapter_campaign/process.py:63-67 | The log never exceeds 1025 records and only its last one can come from `crash`. |
| `PeerSupervisor.CompletedMeansClean` | scripts/adapter_campaign/process.py:149-190 | `stop` completes only if no wait of the run ever failed and forced a cleanup, the stream is finished, there is no failure and no error record, and the exit code is 0 or the one its own crash wrote last. |
| `PeerSupervisor.VerdictExact` | scripts/adapter_campaign/process.py:184-190 | `stop` completes in a step if and only if nothing was forced, the evidence is whole, and the exit code is 0 or the recorded one. |
| `PeerSupervisor.CrashIsFinal` | scripts/adapter_campaign/process.py:118-147 | After a successful crash the log never changes and no further crash gets past its checks. |
| `PeerSupervisor.CrashKindUnique` | scripts/adapter_campaign/process.py:60-147 | In every state of every run the log holds one record of the crash kind for each the child printed, plus one once a crash has succeeded; so at most one if and only if the child printed none, or one and no crash has succeeded. |
| `PeerSupervisor.ForgedCrashKind` | scripts/adapter_campaign/process.py:60-65 | There is a run whose log holds two records of kind `intentional_crash`. |
| `ByteBudget.TruncatedIsLongest` | scripts/adapter_campaign/run.py:88-91 | For every string and budget, encode, cut and decode gives the longest whole-character prefix that fits. |
| `ByteBudget.LongestUnique` | scripts/adapter_campaign/run.py:88-91 | There is only one such prefix. |
| `ByteBudget.RoundTrip` | scripts/adapter_campaign/run.py:89-91 | Decoding undoes encoding when nothing is cut. |
| `ByteBudget.Monotone` | scripts/adapter_campaign/run.py:88-91 | A larger budget never shows less. |
| `ByteBudget.AcceptsExactly` | scripts/adapter_campaign/run.py:79-94 | With a declared prefix the assertions accept exactly one text, the longest fitting prefix of prefix and message, and the budget assertion alone can never reject it; a missing message is refused; without a declared prefix any text within the budget passes. |
| `Framing.ReadStreamBack` | scripts/adapter_campaign/lab/sources.py:72-74 | A reader recovers every file list from its digest input. |
| `Framing.StreamInjective` | scripts/adapter_campaign/lab/sources.py:72-74 | Two lists with lengths below 2^64 give the same digest input if and only if they are equal. |
| `SnapshotDigest.TakeSnapshot` | scripts/adapter_campaign/lab/sources.py:51-89 | The recorder succeeds exactly when the tree is clean or dirt is allowed, every listed name is a readable file, and nothing changed meanwhile; it then has copied, counted and fed to the hash exactly the listed files in order. |
| `SnapshotDigest.VerifyMaterial` | scripts/adapter_campaign/lab/reference.py:139-166 | The checker accepts exactly the staged trees whose walk, counts, digest and image copies all agree with the record. |
| `SnapshotDigest.ListingSorted` | scripts/adapter_campaign/lab/sources.py:56-58 | A listing in Git's byte order gives a path-sorted record, empty names dropped. |
| `SnapshotDigest.SameInputSameFiles` | scripts/adapter_campaign/lab/reference.py:139-156 | Recorder and checker feed the hash the same bytes if and only if the same paths, contents and executable bits are present. |
| `SnapshotDigest.AcceptedIsIdentical` | scripts/adapter_campaign/lab/reference.py:143-166 | Acceptance means the staged tree and the image hold exactly the recorded files, or the two inputs are a collision of the hash. |
| `SnapshotDigest.IdenticalIsAccepted` | scripts/adapter_campaign/lab/reference.py:143-166 | An untouched staged copy whose files the image holds is always accepted. |
| `SnapshotDigest.VerifiedIsTheCheckout` | scripts/adapter_campaign/lab/sources.py:54-89 | A snapshot of a Git listing that verifies later holds exactly that checkout's files, unless the hash collides. |
| `SnapshotDigest.SnapshotIsAccepted` | scripts/adapter_campaign/lab/reference.py:139-166 | The copy that a snapshot of a Git listing staged, found again unchanged and also in the image, is accepted. |
| `YamlText.EscapeIsPerChar` | scripts/ci/docker_bridge_artifacts.py:481-496 | The five chained replacements are one per-character escape. |
| `YamlText.ReadEscaped` | scripts/ci/docker_bridge_artifacts.py:481-496 | Reading an escaped text up to its closing quote gives the text back, or fails if and only if a raw control character is left in. |
| `YamlText.ResolveInt` | scripts/ci/docker_bridge_artifacts.py:507-508 | A printed integer reads as that integer. |
| `YamlWriter.WriteLines` | scripts/ci/docker_bridge_artifacts.py:534-554 | The recursive printer appends exactly the mapping's lines to the shared list. |
| `YamlWriter.WriteConfig` | scripts/ci/docker_bridge_artifacts.py:567-569 | The file's text is the top-level lines, each newline-terminated. |
| `YamlReader.ReadKeyText` | scripts/ci/docker_bridge_artifacts.py:519-531 | A printed key reads as itself exactly when its text is at most 1024 characters and it is quoted and printable, or plain and not a null, boolean or number. |
| `YamlReader.ReadEntryText` | scripts/ci/docker_bridge_artifacts.py:546-554 | One printed entry reads as its key and its scalar, or as a bare key before a mapping. |
| `YamlRoundTrip.LinesAreWhole` | scripts/ci/docker_bridge_artifacts.py:534-554 | No value of any mapping puts a raw newline into a line or leaves one empty. |
| `YamlRoundTrip.ReadLines` | scripts/ci/docker_bridge_artifacts.py:534-554 | Reading a printed block by indentation consumes exactly its lines, at any depth and before any outer text. |
| `YamlRoundTrip.ReadBack` | scripts/ci/docker_bridge_artifacts.py:557-569 | For every mapping, what a reader sees in the printed text. |
| `YamlRoundTrip.FaithfulSeen` | scripts/ci/docker_bridge_artifacts.py:499-554 | A value is seen unchanged if and only if no mapping in it is empty, its keys are readable and its strings printable. |
| `YamlRoundTrip.RoundTrip` | scripts/ci/docker_bridge_artifacts.py:481-569 | The printed file reads back as the same mapping if and only if the mapping is faithful in that sense. |
| `YamlRoundTrip.NumberKeyIsLost` | scripts/ci/docker_bridge_artifacts.py:516-531 | The key `7` is printed plain and does not come back. |
| `YamlRoundTrip.LongKeyIsLost` | scripts/ci/docker_bridge_artifacts.py:519-531 | A key of 1025 letters is printed as a simple key and does not come back. |
| `YamlRoundTrip.EmptyMapIsLost` | scripts/ci/docker_bridge_artifacts.py:548-552 | An empty sub-mapping does not come back. |
| `YamlRoundTrip.ControlIsLost` | scripts/ci/docker_bridge_artifacts.py:490-496 | A string with a NUL character does not come back. |
| `AdapterRegistry.CheckLoggers` | src/medre/adapter_registry.py:109-122 | The loop accepts exactly the declarations with allowed, unique names and known levels. |
| `AdapterRegistry.AddDestinations` | src/medre/adapter_registry.py:135-142 | Succeeds exactly when all kinds are valid, unreserved and unused, and then adds exactly them. |
| `AdapterRegistry.Build` | src/medre/adapter_registry.py:64-151 | The constructor succeeds if and only if the specs are acceptable; its tables then index exactly the specs and destinations. |
| `AdapterRegistry.NativeOrder` | src/medre/adapter_registry.py:147-151 | Detection order is a permutation of the specs by ascending priority, ties in registration order. |
| `AdapterDiscovery.AcceptedExactly` | src/medre/adapter_registry.py:227-248 | A provider is accepted if and only if it is healthy and shares no name or kind with any other. |
| `AdapterDiscovery.NobodyIsLost` | src/medre/adapter_registry.py:201-249 | Accepted and failed providers together are exactly the installed ones, with multiplicity. |
| `AdapterDiscovery.AcceptedApart` | src/medre/adapter_registry.py:231-248 | Two accepted providers that share a name or a kind are one and the same. |
| `AdapterDiscovery.OrderIndependent` | src/medre/adapter_registry.py:203-205 | The accepted list is the same for every permutation of the entry points. |
| `AdapterDiscovery.OneMore` | src/medre/adapter_registry.py:227-248 | Adding a provider drops exactly those it clashes with. |
| `AdapterDiscovery.QuarantineIsLocal` | src/medre/adapter_registry.py:206-249 | A provider with a fresh name that is broken or owns only fresh kinds changes nobody's acceptance. |
| `AdapterDiscovery.DiscoveryIsAcceptable` | src/medre/adapter_registry.py:231-249 | For any entry points the accepted specs satisfy the strict constructor. |
| `AdapterDiscovery.LoadAll` | src/medre/adapter_registry.py:206-226 | The first phase splits the providers into exactly the healthy and the broken ones, in order. |
| `AdapterDiscovery.Arbitrate` | src/medre/adapter_registry.py:231-248 | The second phase splits the candidates into exactly the accepted and the conflicting ones, in order. |
| `AdapterDiscovery.Discover` | src/medre/adapter_registry.py:190-249 | The final constructor call always succeeds, on the accepted specs in provider order; everyone else is a failure. |
| `HtmlWitness.Witness.Feed` | scripts/adapter_campaign/presentation.py:65-118 | A sequence of callbacks leaves the record that the specification gives, up to the first failing one. |
| `HtmlWitness.ConsistentStep` | scripts/adapter_campaign/presentation.py:74-118 | Every accepted callback keeps recorded ranges inside the text, nested or disjoint, and compatible with what is still open. |
| `HtmlWitness.RangesAreLaminar` | scripts/adapter_campaign/presentation.py:96-114 | After any accepted callbacks, ranges lie within the text and any two are nested or disjoint. |
| `HtmlWitness.ReplayForest` | scripts/adapter_campaign/presentation.py:74-118 | Replaying a well-formed forest from any record adds exactly its text and its ranges and leaves the stack as it was. |
| `HtmlWitness.Parse` | scripts/adapter_campaign/presentation.py:74-118 | Every accepted callback sequence is the events of one forest per open element. |
| `HtmlWitness.AcceptedExactly` | scripts/adapter_campaign/presentation.py:74-118 | Callbacks are accepted with an empty final stack if and only if they are the events of a well-formed forest. |
| `Evidence.CountsForceDistinct` | scripts/adapter_campaign/evidence.py:84-89 | Equal counts and equal target sets leave no room for a repeated target. |
| `Evidence.RowIsReached` | scripts/adapter_campaign/evidence.py:90-101 | Every outbox row is the one inspected through some sent receipt. |
| `Evidence.AcceptedIsOneToOne` | scripts/adapter_campaign/evidence.py:84-127 | If `verify` accepts, sent receipts, outbox rows and targets correspond one to one and row ids are distinct. |
| `Evidence.OneToOneIsAccepted` | scripts/adapter_campaign/evidence.py:71-127 | One documented delivery per target is always accepted. |
| `Evidence.VerifyExactly` | scripts/adapter_campaign/evidence.py:71-127 | `verify` accepts if and only if the source, the receipt lifecycles and one delivery per target hold. |
| `Evidence.EveryRowIsLive` | scripts/adapter_campaign/evidence.py:98-120 | If `verify` accepts, every outbox row is sent, live, on attempt 1, of this event and for a declared conversation. |
| `Coverage.AuditReceipts` | scripts/analyze_adapter_campaign.py:169-240 | One pass counts exactly the confirmed receipts and stays silent exactly when none is at fault. |
| `Coverage.AuditCase` | scripts/analyze_adapter_campaign.py:154-264 | One case adds exactly its confirmed receipts and its durability, and a finding exactly when it is not clean. |
| `Coverage.AuditCases` | scripts/analyze_adapter_campaign.py:153-264 | The loop adds up exactly the confirmed receipts and the durable cases, and finds nothing exactly when every case is clean. |
| `Coverage.Summarize` | scripts/analyze_adapter_campaign.py:25-272 | The analysis raises exactly on unreadable reports and on those a trusted plan contradicts, passes exactly the clean ones, reports each finding once, and its counters are exact for all others. |
| `Coverage.PlanOnlyRefuses` | scripts/analyze_adapter_campaign.py:82-119 | A trusted plan that does not refuse a report never changes its assessment or its counters. |
| `Coverage.AllPairsSize` | scripts/analyze_adapter_campaign.py:48-54 | n names have n·n − n ordered pairs. |
| `Coverage.CompleteDirections` | scripts/analyze_adapter_campaign.py:47-63 | In complete directions every endpoint is a source and its targets are all the others. |
| `Coverage.PassCoversAllPairs` | scripts/analyze_adapter_campaign.py:45-57 | The completed directions of a passing report are a permutation of all ordered pairs of endpoints. |
| `Coverage.CasesPerSource` | scripts/adapter_campaign/baseline.py:31-39 | Covered turns mean one case per endpoint and fixture, each from an endpoint. |
| `Coverage.PassCounts` | scripts/analyze_adapter_campaign.py:153-272 | With n endpoints and k fixtures a passing report has k·n cases, k·n durable ones and k·n·(n−1) independent receipts. |
| `Coverage.OneRowPerTarget` | scripts/adapter_campaign/evidence.py:84-120 | An accepted item has exactly one outbox row per target, and it is sent, live, on attempt 1, of this event and for the target's conversation. |
| `Coverage.PassCoversDirection` | scripts/analyze_adapter_campaign.py:153-264 | In a passing report every ordered pair of endpoints and every fixture has exactly one case; its receipt at the target is confirmed and its one outbox row for the target is sent, live and on attempt 1. |
| `Requirements.NormalizeIdempotent` | src/medre/tool_management.py:68-79 | Normalizing a normalized name changes nothing. |
| `Requirements.MergeIdempotent` | src/medre/self_upgrade.py:80-91 | Merging extras into their own merge gives the same sorted list. |
| `InstallPlanner.ChangeAdapters` | src/medre/tool_management.py:382-405 | The loop computes exactly the planned request or its first refusal. |
| `InstallPlanner.RequestKeepsTheRest` | src/medre/tool_management.py:382-412 | A change that resolves is never ambiguous: core first and untouched, names unique, every other requirement unchanged in value and order. |
| `InstallPlanner.InstallRequests` | src/medre/tool_management.py:388-405 | Every selection of an accepted install resolves to its alias's source with the extras of both; the last one for a package is exactly what the request holds, and only selected packages are touched. |
| `InstallPlanner.RemovalRequests` | src/medre/tool_management.py:389-405 | An accepted removal removes only packages that were recorded, and requests exactly the others, unchanged and in order. |
| `InstallPlanner.InstallThenRemove` | src/medre/tool_management.py:388-405 | Install then remove by the same selection restores the recorded list if and only if the package was new and the alias does not name an installed package. |
| `InstallPlanner.InstallThenRemoveByName` | src/medre/tool_management.py:388-405 | Removing by distribution name always finds what was installed, and restores the recorded list if and only if the package was new. |
| `InstallPlanner.AliasNamesAnother` | src/medre/tool_management.py:389-396 | With `medre` and `a` recorded and alias `a` for package `b`, installing `a` and removing `a` does not restore the list although `b` was new. |
| `SelfUpgrade.CollectExactly` | src/medre/self_upgrade.py:166-179 | The change list holds exactly the catalog sources of the selected packages, core included, each package once; otherwise two of them differ for one package. |
| `SelfUpgrade.ConflictExactly` | src/medre/self_upgrade.py:174-179 | Synchronizing is refused if and only if the catalog has two different sources for one selected package, and for no other reason. |
| `SelfUpgrade.Synchronize` | src/medre/self_upgrade.py:166-185 | The two loops compute the synchronized request, and refuse exactly on such a conflict. |
| `SelfUpgrade.PlanUpgrade` | src/medre/self_upgrade.py:124-197 | The plan is never refused as ambiguous, keeps everything outside its packages, and requests of its packages what `UpgradeSyncs` says. |
| `SelfUpgrade.UpgradeKeepsTheRest` | src/medre/self_upgrade.py:160-197 | No upgrade is refused as ambiguous; its request has core first, unique names, and everything outside its packages unchanged in value and order. |
| `SelfUpgrade.SyncKeepsExtras` | src/medre/self_upgrade.py:180-185 | Every package of a change list gets its source and, if it was recorded, exactly the union of both requests' extras. |
| `SelfUpgrade.UpgradeSyncs` | src/medre/self_upgrade.py:166-188 | In an upgrade plan with synchronization every selected catalog package has the catalog's source with exactly the union of extras, and every other package its recorded requirement; without it the request is the recorded one. |
| `AdapterReset.PlanReset` | src/medre/self_upgrade.py:200-267 | The plan is never refused as ambiguous, keeps everything outside its packages, and requests of its packages what `ResetExtras` says. |
| `AdapterReset.ResetKeepsTheRest` | src/medre/self_upgrade.py:233-254 | No reset is refused as ambiguous; it keeps core first, unique names, and everything outside its packages. |
| `AdapterReset.ResetAllAt` | src/medre/self_upgrade.py:234-248 | Each reset package is rewritten once, from what was recorded for it; every other package keeps its requirement. |
| `AdapterReset.ResetExtras` | src/medre/self_upgrade.py:233-254 | In a planned reset every adapter has its default source with exactly the union of default and recorded extras minus `integration`, and core, when included, its default source with the union. |
| `AdapterReset.ResetIdempotent` | src/medre/self_upgrade.py:233-250 | Rewriting a rewritten request changes nothing: no source, no extra, no position. |
| `AdapterReset.ResetTwice` | src/medre/self_upgrade.py:200-254 | Planning the same reset for the request it produced gives the same plan. |

## Left out

- The routing core, its storage, pipeline and retries: not part of this model beyond the atomic-claim assumption of the workload.
- The upper caps on the workload's sizes, producer and claimer exceptions, store restart and the report's other figures: the protocol argument does not use them.
- Percentile.Compute: models samples and their rounding over real numbers, not over binary floating point.
- Scheduling fairness: termination is proved for every scheduler as a bound on all runs, so none is assumed.
- PeerSupervisor.CompletedMeansClean: does not model the `finally` block of `stop`, which only kills, reaps and closes; `start`, `_write` and the command helpers are left out too.
- PeerSupervisor.CrashIsFinal: assumes, as the supervisor's own calls do, that `crash` and `stop` are called one at a time.
- ByteBudget.AcceptsExactly: leaves out the wire-header stripping and the HTML visibility check around it; strings are sequences of Unicode scalar values.
- SnapshotDigest.TakeSnapshot: leaves out the Git subprocesses and path normalization; whether the tree is dirty, whether it changed meanwhile and what a listed name is are given.
- SnapshotDigest.VerifyMaterial: takes the directory walk as a list of entries with distinct paths, and leaves out the inventory's own field checks.
- YamlRoundTrip.RoundTrip: leaves out float and list leaves and redaction.
- AdapterDiscovery.Discover: leaves out the texts of failure reasons; what loading an entry point does is part of the entry point.
- HtmlWitness.Witness.Feed: starts at the callbacks; how the HTML parser produces them is left out.
- Coverage.Summarize: takes the presentation and bridge-context checks of a receipt, and the attribution check of a trusted plan, as given verdicts.
- InstallPlanner.ChangeAdapters: starts from parsed selections and requirements; the two regular expressions and the receipt's TOML translation are left out.
- SelfUpgrade.PlanUpgrade: takes which sources are mutable as a given predicate, and leaves out notes and command-line text.
- Native SDK peers, OAuth, browser, Docker and provisioning code, the command line, and the Git, uv and pip orchestration: foreign calls and input or output.
- The TCP gate, the budget tables and the log review: their invariants are one-step or fixed arithmetic.
