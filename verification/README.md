# Verified models of the media server's scanning, logging and migration protocols

This project models the parts of the server whose correctness spans whole runs, several processes or several
functions, and proves what those parts are for. It is pure Dafny 4.11; `dafny verify dfyconfig.toml` checks all of it.

| file | what it models |
|---|---|
| `Text.dfy`, `Sorting.dfy`, `Common.dfy` | Go strings, and library sorts specified by everything they may return |
| `Scan.dfy`, `Paths.dfy`, `ScanLimit.dfy` | projection of provider entries, first-wins deduplication, the bulk scan, path normalisation and ignoring, the entry limit |
| `Pipeline.dfy` | the streamed scan: producer, workers, two bounded channels, reorder buffer, cancellation at any point |
| `Bfs.dfy`, `BfsReach.dfy`, `TreeScan.dfy` | paged listing, the breadth-first scan of an arbitrary graph, what it lists, and its agreement with the bulk scan |
| `LogStore.dfy`, `LogQuery.dfy` | rotation and retention of the runtime log; cursor pagination over a log that changes between pages |
| `ManifestRevision.dfy` | the triggers that count manifest changes per transfer task |
| `ProfileNames.dfy`, `NamingMigration.dfy` | the move of naming templates from libraries to profiles, and the name allocator it needs |
| `DefaultIngest.dfy` | the two updates that choose one default ingest library per connection |
| `LegacyRecovery.dfy` | the batch loop that settles legacy artifact writes |
| `MigrationRunner.dfy` | the versioned migration runner with crashes, restarts and the late foreign-key check |
| `Base64.dfy`, `KeyFile.dfy` | publication of the credential key by concurrent processes, with the Base64 round trip of RFC 4648 |
| `SearchStream.dfy` | the byte-budgeted event stream of a site search |
| `Recognition.dfy` | grouping of files into recognition units |

Protocols are state machines: a step relation, an inductive invariant kept by every step, and theorems over every run.
Code that updates fields or database rows step by step is a class whose methods are proved equal to a function of the
old state; the theorems are about that function.

Rules that decide what is kept, matched, rotated or counted are also stated on the fields of their inputs, apart from the
functions the loops are proved equal to.

Where the code falls short of what one would expect of it, the model keeps the code, one lemma exhibits an input, and
another says exactly when the expectation holds:

| expectation | an input that fails it | when it holds |
|---|---|---|
| a streamed scan that reports success has consumed the whole stream and gives the sequential answer | `Pipeline.CancelledRunLosesItem`, `Pipeline.SwallowedCancelLosesItem` | `Pipeline.CompleteIff` for the stream, `Pipeline.SameAnswerIff` for the answer |
| streamed and bulk scan of one listing agree | `ScanLimit.FullTreeDiffers` | `Scan.StreamAgreesWithBulk` |
| the breadth-first scan lists every directory that can be reached without an ignored path | `BfsReach.SpanningPatternHides` | `BfsReach.ListsExactlyReachable`; `Paths.JudgeNamesAgree` for a condition on single patterns |
| a descending query is ordered by time | `LogQuery.SharedIdentityMisorders` | `LogQuery.DescendingOrderIff` |
| the cursor of a page is accepted for the next | `LogQuery.LongIdentityRefused` | `LogQuery.CursorRoundTrip`, `LogQuery.CursorNeedsUpperEnd` |
| log retention removes the oldest files | `LogStore.TiesTearAHole` | `LogStore.RotationOrderIff` |
| equal manifest revisions mean the same rows | `ManifestRevision.RekeyingEscapes` | `ManifestRevision.QuietRowView`; up to primary keys always, `ManifestRevision.NoAbaContents` |
| a finished migration leaves no foreign-key violation | `MigrationRunner.FailedCheckForgotten` | up to the last passed check, `MigrationRunner.PassedVouches` and `MigrationRunner.StandingUnseen`; which checks pass, `MigrationRunner.CheckedIffNotAbandoned` |
| a migrating process can always finish | `MigrationRunner.StandingViolationBlocks` | `MigrationRunner.CanFinish` |
| the recovery's "not settled" error, which a comment calls impossible, is unreachable | `LegacyRecovery.RefusalReachable` | `LegacyRecovery.Tx.Recover` |
| the provider anchor of a unit, as a comment promises, survives files that join | `Recognition.JoiningMovesAnchor` | `Recognition.JoiningKeepsSourceKey` |

## Model

| member | source | states |
|---|---|---|
| `Pipeline.ConservedStep` | internal/medialibrary/scan.go:180-275 | every step of producer, workers and consumer keeps each sequence number in exactly one place: a channel, a worker's hand, the reorder buffer, consumed or given up |
| `Pipeline.InvStep` | internal/medialibrary/scan.go:170-275 | every enabled step keeps the whole invariant: conservation, driver position, each item being the outcome of its own number, the folded prefix, and channel and exit control |
| `Pipeline.Reachable` | internal/medialibrary/scan.go:170-286 | the invariant holds after every run of steps, cancelled runs included |
| `Pipeline.ReachableMeaning` | internal/medialibrary/scan.go:225-275 | in every reachable state the accumulated result is the sequential fold of the first `next` outcomes, pending numbers lie between `next` and the number sent, and no number is in two places |
| `Pipeline.NeverStuck` | internal/medialibrary/scan.go:174-224 | until the consumer has finished, some step other than a cancellation is enabled, also after cancellation: no deadlock with bounded channels |
| `Pipeline.MeasureStep` | internal/medialibrary/scan.go:174-275 | every step decreases a weight of unsent, queued, held, undelivered and pending items |
| `Pipeline.RunsBounded` | internal/medialibrary/scan.go:174-275 | no run has more steps than the weight of its first state, so every run ends |
| `Pipeline.Finishes` | internal/medialibrary/scan.go:213-277 | from every reachable state some continuation closes both channels and finishes |
| `Pipeline.FinishedConsumed` | internal/medialibrary/scan.go:263-277 | a finished run in which nothing was given up has consumed every number handed out and its reorder buffer is empty |
| `Pipeline.CompleteIff` | internal/medialibrary/scan.go:184-224 | a finished run whose driver returned nil, cancelled or not, has consumed the whole stream if and only if no worker took its cancellation branch and the driver did not swallow the cancellation its callback reported; and then it returns exactly the sequential result |
| `Pipeline.SameAnswerIff` | internal/medialibrary/scan.go:225-286 | a finished run whose driver returned nil gives the sequential answer, complete or not, if and only if the driver swallowed nothing and what was not consumed holds no file, no asset, and no failure that the result does not show anyway |
| `Pipeline.RefinesSequential` | internal/medialibrary/scan.go:168-286 | every finished uncancelled run without a driver error returns exactly the sequential result, whatever the interleaving; with a driver error, the fold of what was sent |
| `Pipeline.PipelineAgreesWithBulk` | internal/medialibrary/scan.go:170-286 | without per-item panics such a complete run returns the bulk result of the same stream if and only if the accepted count is below the entry limit, or equal to it with a partial snapshot |
| `Pipeline.CancelledRunLosesItem` | internal/medialibrary/scan.go:186-190 | a run that returns success, not partial, with its only file missing, because the context ended after the driver returned |
| `Pipeline.SwallowedCancelLosesItem` | internal/medialibrary/scan.go:203-214 | a run in which no worker gave anything up still returns success, not partial, with its only file missing, because the driver returned nil after its callback met the cancelled context |
| `Text.TrimMeaning` | internal/medialibrary/scan.go:310-310 | trimming cuts off white space at both ends and nothing else |
| `Text.LessMeaning` | internal/medialibrary/scan.go:454-458 | the order of paths is lexicographic |
| `Scan.FoldMarks` | internal/medialibrary/scan.go:245-256 | the two seen-sets hold exactly the paths and the non-empty provider identities of the kept items |
| `Scan.FoldAdmits` | internal/medialibrary/scan.go:245-254 | an item is accepted exactly when no earlier kept item shares its path or its non-empty provider identity |
| `Scan.FoldKeeps` | internal/medialibrary/scan.go:231-262 | the consumer computes the greedy first-wins selection: kept files and assets in order, the number of dropped duplicates, and whether any item failed |
| `Scan.FoldDistinct` | internal/medialibrary/scan.go:245-256 | accepted items have pairwise different paths and pairwise different non-empty provider identities, across files and assets |
| `Scan.FoldSortUnique` | internal/medialibrary/scan.go:454-458 | the unstable final sort has one possible result on a deduplicated snapshot |
| `Scan.ScanProviderTree` | internal/medialibrary/scan.go:384-434 | the loop returns the driver's failure, the unsorted fold of the entries before a cancellation, or the sorted fold up to the first item the entry limit turns away |
| `Scan.CutCounts` | internal/medialibrary/scan.go:423-426 | the bulk scan stops early exactly when more than the limit would be accepted, and never holds more than the limit |
| `Scan.ResultsReport` | internal/medialibrary/scan.go:384-434 | the bulk result holds the kept files and assets among the items before the first one beyond the limit, the streamed result those among all items, each with the number of dropped duplicates; partial exactly when the listing was, an item failed among those, or the limit was passed, for the stream already reached |
| `Scan.StreamAgreesWithBulk` | internal/medialibrary/scan.go:282-284 | streamed and bulk snapshot are equal in every field if and only if fewer than the limit are accepted, or exactly the limit in an already partial snapshot |
| `ScanLimit.FullTreeDiffers` | internal/medialibrary/scan.go:282-284 | a tree of exactly 250000 files: both scans return the same files, only the streamed result is partial |
| `Paths.IgnoreBelow` | internal/medialibrary/scan.go:661-675 | whatever ignores a directory ignores every path below it |
| `Paths.IgnoreIsLocal` | internal/medialibrary/scan.go:661-675 | with patterns that have no slash behind their first character a path is ignored exactly when one of its names is |
| `Paths.IgnoreAbove` | internal/medialibrary/scan.go:661-675 | what is ignored below the root is ignored below every path |
| `Paths.JudgeNamesAgree` | internal/medialibrary/scan.go:661-675 | patterns that have no slash behind their first character agree on names |
| `Paths.IgnoreMeaning` | internal/medialibrary/scan.go:661-675 | a path is ignored exactly when one of its segments is the recycle directory or a pattern that is not blank occurs in it, both without regard to case |
| `Paths.CleanIsCanonical` | internal/medialibrary/scan.go:324-328 | cleaning spells a path with proper segments only |
| `Paths.CleanedNames` | internal/medialibrary/scan.go:318-324 | on a path that passed the test for steps upwards cleaning drops the empty and the dot segments and nothing else |
| `Paths.ExtFromDot` | internal/medialibrary/scan.go:131-131 | the extension of a name is its text from the last dot on: whatever the stem, `stem.tail` has extension `.tail` when the tail has neither dot nor slash |
| `Paths.ExtNone` | internal/medialibrary/scan.go:131-131 | a name whose last segment has no dot has no extension |
| `Paths.RootedInjective` | internal/medialibrary/scan.go:115 | different lists of well-formed segments spell different paths |
| `Paths.ProjectGood` | internal/medialibrary/scan.go:308-338 | on a well-formed path the projection changes nothing: it only filters and classifies |
| `Paths.ProjectMeaning` | internal/medialibrary/scan.go:308-338 | an accepted item is no directory and not ignored, lies under the path spelled by the named segments of its own path, free of zero bytes and line breaks, carries the entry's own facts, and is a file exactly when the text from the last dot of the name on, if any, is a wanted extension without regard to case; otherwise that text is an asset extension |
| `Paths.ProjectFails` | internal/medialibrary/scan.go:314-328 | an entry makes the snapshot partial exactly when it is neither directory nor ignored and its path has no leading slash, a step upwards in either spelling of the separator, no name, or a zero byte or line break |
| `Paths.WantedIsFile` | internal/medialibrary/scan.go:329-332 | a well-formed, not ignored entry named `stem.tail` whose `.tail` is a wanted extension becomes the file with the entry's facts, whatever the stem |
| `Paths.WantedIsAsset` | internal/medialibrary/scan.go:333-336 | the same for an asset extension that is no file extension |
| `Paths.WantedIsFound` | internal/medialibrary/scan.go:225-286 | such an entry, when no earlier item shares its path or identity, is in the streamed result, and in the bulk result unless the limit is passed |
| `Bfs.ListProviderDirectory` | internal/medialibrary/scan.go:436-452 | on every provider for which the page loop ends it returns the concatenated pages, the driver's error, or the non-progressing error |
| `Bfs.TurnsDoNotMatter` | internal/medialibrary/scan.go:436-452 | the reply is determined by the pages alone |
| `Bfs.HonestPages` | internal/medialibrary/scan.go:436-452 | against an honest listing the loop ends, and the pages concatenate to every item exactly once in order, for any page sizes |
| `Bfs.FaultyPages` | internal/medialibrary/scan.go:436-452 | a listing that is honest up to a page that fails, or that has nothing and announces more, is refused as a whole with the matching error |
| `Bfs.HonestGraph` | internal/medialibrary/scan.go:106 | an honestly paged directory stands in the walked graph with exactly its items |
| `Bfs.VisitAll` | internal/medialibrary/scan.go:109-137 | visiting a directory within the limit never lets queue length minus items seen grow, the measure that ends the walk |
| `Bfs.ScanDirectory` | internal/medialibrary/scan.go:109-137 | the item loop equals the specification, the entry limit included |
| `Bfs.ListedOnce` | internal/medialibrary/scan.go:95-139 | on every graph, cyclic or with shared directories, the directories the queue loop asks for have pairwise different identities |
| `Bfs.FlatListing` | internal/medialibrary/scan.go:121-123 | without recursion the root is the only directory asked for, whatever the provider holds |
| `Bfs.VisitFinds` | internal/medialibrary/scan.go:109-137 | what one item adds, read off its fields: a directory entry, a file for a wanted extension, an asset for an asset extension, nothing when its path is ignored |
| `Bfs.WalkFinds` | internal/medialibrary/scan.go:95-139 | with and without recursion, finished or not, the walk has collected exactly what the items of the listed directories say, in order and up to the entry limit, and is partial exactly when there were more |
| `Bfs.FlatFinds` | internal/medialibrary/scan.go:109-137 | without recursion every direct child of the root that is not ignored is reported: as a directory, or as a file when its extension is wanted |
| `Bfs.WalkEnds` | internal/medialibrary/scan.go:98-108 | only a directory that cannot be listed fails the walk, and it is the last one asked for; the walk asks for no more than the context allows |
| `Bfs.WalkGraph` | internal/medialibrary/scan.go:95-139 | over every provider with finite listings the queue loop ends as specified, and the directories it asks for, recorded one by one, are exactly the specified listing |
| `Bfs.ScanProviderBfs` | internal/medialibrary/scan.go:78-140 | the scan with its empty-root error, cancellation and listing error, sorted on success; no directory is asked for twice, without recursion only the root is, and the result reports exactly what the items of the directories asked for say, up to the entry limit |
| `BfsReach.KnownNext` | internal/medialibrary/scan.go:109-137 | one turn keeps the account: found directories in level order, every child of a listed one found at its level or above, every found one reached |
| `BfsReach.ListingCloses` | internal/medialibrary/scan.go:95-139 | every directory an undisturbed scan lists is reached by a way without an ignored path, and with a listed directory every child is listed, no deeper than there |
| `BfsReach.ListsExactlyReachable` | internal/medialibrary/scan.go:95-139 | for every graph an undisturbed recursive scan lists exactly the directories that some way down of fewer than 64 levels reaches without an ignored path, if and only if the patterns agree on names: a name that is not ignored under one path is not ignored under another path that is not ignored itself |
| `BfsReach.DisagreementHides` | internal/medialibrary/scan.go:116-128 | whenever patterns ignore a name under one path and not under another, a directory with those two names hides a reachable child |
| `BfsReach.SpanningPatternHides` | internal/medialibrary/scan.go:116-128 | the instance for the pattern a/x: the child x of a directory known as /a and as /b is never listed |
| `TreeScan.IgnoredHoldsNothing` | internal/medialibrary/scan.go:116-118 | a subtree under an ignored directory projects to nothing, so pruning equals filtering |
| `TreeScan.FlattenDistinct` | internal/medialibrary/scan.go:115 | the flattened entries of a tree with distinct sibling names have distinct paths |
| `TreeScan.WalkTree` | internal/medialibrary/scan.go:95-139 | conservation: a walk ends by itself with, item by item, what it had plus what the queued subtrees hold |
| `TreeScan.FoldSkipsDirectories` | internal/medialibrary/scan.go:311-313 | directory entries in a bulk listing leave the snapshot alone |
| `TreeScan.FoldTally` | internal/medialibrary/scan.go:394-432 | entries with distinct keys are all accepted: the bulk fold holds each projected item exactly as often as the listing |
| `TreeScan.BfsMatchesBulk` | internal/medialibrary/scan.go:95-140 | on every well-formed tree with unique names and identities, within depth and entry limits, breadth-first and bulk scan return the same sorted files and assets, neither partial, for any order of the bulk listing |
| `LogQuery.DescendingNeedsIdentities` | internal/logging/query.go:165-174 | the comparator itself: descending, it separates any two entries of a log if and only if identities are pairwise distinct |
| `LogQuery.DescendingOrderIff` | internal/logging/query.go:165-174 | a descending query delivers newer entries first, in whatever order the files were read, if and only if matching entries that share an identity share their time |
| `LogQuery.SharedIdentityMisorders` | internal/logging/query.go:165-174 | two entries with one identity come out of a descending query with the older one first |
| `LogQuery.SortedIsChain` | internal/logging/query.go:165-174 | with distinct identities the sorted list holds exactly the matching entries, strictly ordered in the query direction |
| `LogQuery.MatchMeaning` | internal/logging/query.go:335-357 | an entry matches exactly when its time lies in the range, each non-empty list holds its level, module, component, operation and plugin, the keyword occurs in its message without regard to case, every correlation that is asked for prints as asked, a missing field as "<nil>", and a business query finds a business entry of the server itself |
| `LogQuery.DeliveredSatisfies` | internal/logging/query.go:140-195 | whatever the identities, every delivered entry is in the log, meets every demand of the filter and lies behind the anchor |
| `LogQuery.PageMeaning` | internal/logging/query.go:175-195 | a page holds matching entries behind the anchor, in order, at most the limit; every other such entry lies behind the returned cursor |
| `LogQuery.PageServes` | internal/logging/query.go:175-195 | with distinct identities, whatever meets every demand of the filter behind the anchor is in the page or behind its cursor |
| `LogQuery.CursorRoundTrip` | internal/logging/query.go:359-392 | a token made from a delivered entry decodes to that entry's key if and only if the filter is the same, the identity has 1 to 128 characters and the token at most 1024; otherwise it is refused |
| `LogQuery.DecodeMeaning` | internal/logging/query.go:379-392 | a token is accepted exactly when it has at most 1024 characters, decodes, was made for the same filter, names a time in the range, and an identity of 1 to 128 characters |
| `LogQuery.LongIdentityRefused` | internal/logging/query.go:388-390 | a delivered entry with a 129-character identity whose cursor is refused |
| `LogQuery.NormalizeMeaning` | internal/logging/query.go:83-128 | an accepted query spans at most 31 days, the last one when it names no lower end, asks for 1 to 200 entries, 100 by default, newest first unless it says "asc", and keeps every other field |
| `LogQuery.NormalizeIff` | internal/logging/query.go:83-128 | a query is refused exactly for an empty range or one over 31 days, a keyword over 128 characters, an unknown direction or level, a limit over 200, a correlation over 128 characters or with a zero byte or line break, or an attempt that is no number from 1 up |
| `LogQuery.PinnedIsStable` | internal/logging/query.go:83-128 | a query that repeats the upper end reported with the first page normalises to the same filter at every later time |
| `LogQuery.CursorNeedsUpperEnd` | internal/logging/query.go:83-89 | the cursor of one page is accepted by the same query at another time if and only if the query names its upper end |
| `LogQuery.UncutIsComplete` | internal/logging/query.go:140-164 | a scan that reports nothing cut, by an error, the context or the 64 MiB budget, has read every entry of every file |
| `LogQuery.CancelledIsCut` | internal/logging/query.go:141-144 | a reading whose context ends before the last file reports that it was cut |
| `LogQuery.SmallLogIsUncut` | internal/logging/query.go:140-164 | readable files of less than 64 MiB together are read whole, and nothing is reported cut, when nobody cancels |
| `LogQuery.Collect` | internal/logging/query.go:140-164 | the file loop returns the matches of what it read, bytes and malformed lines, and is partial exactly when something was cut or a match is truncated |
| `LogQuery.TakePage` | internal/logging/query.go:175-195 | the page loop returns the first entries behind the anchor and reports the anchor found exactly when an entry with its key is present |
| `LogQuery.RunQuery` | internal/logging/query.go:130-199 | a query refuses a bad token and otherwise returns that page of the sorted matches, the token of its last entry when more remain, and the counters; every delivered entry meets every demand of the filter, and on a log with distinct identities whatever meets them behind the anchor is delivered or behind the token; an answer that is not partial has read all entries of all files; the partial flag is set whenever something was cut or a match is truncated, and, with distinct identities, exactly then or when the anchor entry is gone |
| `LogQuery.WalkIsMonotone` | internal/logging/query.go:165-195 | following cursors while the log changes arbitrarily between pages, the anchor entry included, delivers strictly in order, hence nothing twice, and only matches |
| `LogQuery.WalkIsComplete` | internal/logging/query.go:165-195 | a completed walk has delivered every matching entry that was readable at each page |
| `LogQuery.UncutWalkIsComplete` | internal/logging/query.go:140-195 | if no page of a completed walk was cut, every matching entry that was in the files throughout has been delivered |
| `LogQuery.RemainingAdvances` | internal/logging/query.go:178-187 | on an unchanged log the next page starts right behind the last delivered entry |
| `LogQuery.WalkOfFixedLog` | internal/logging/query.go:165-195 | on an unchanged log the concatenated pages, of any sizes, are exactly the sorted matches behind the anchor |
| `LogQuery.WholeWalk` | internal/logging/query.go:165-195 | on an unchanged log the pages of a walk from the start concatenate to the whole sorted match list |
| `LogStore.DefaultPolicy` | internal/logging/policy.go:18-24 | the default policy passes validation |
| `LogStore.TrimMeaning` | internal/logging/manager.go:247-269 | cleanup removes the shortest prefix of its order such that age of the first file, count and total size are within the policy; every removed file was too old, or too many files or bytes stood from it on |
| `LogStore.KeptAreYoung` | internal/logging/manager.go:247-269 | in any order by modification time no kept file has outlived the retention period |
| `LogStore.CleanedMeaning` | internal/logging/manager.go:247-269 | whatever the order found, cleanup removes from the directory exactly such a prefix of it and changes nothing else |
| `LogStore.CleanedInv` | internal/logging/manager.go:247-269 | cleanup in any order the sort may return leaves what is held in order and the history within the total limit |
| `LogStore.RestartedHeld` | internal/logging/manager.go:147-167 | recovery, which finishes a torn rotation and compresses what was left, keeps everything held, in order |
| `LogStore.StepInv` | internal/logging/manager.go:99-192 | with any clock and any order among files of equal age, writes, rotations, clean-up ticks, policy changes and restarts, after a rotation torn by a crash too, keep the files an in-order part of the accepted events and the history within the total limit |
| `LogStore.StepStrict` | internal/logging/manager.go:99-192 | when a rotation gives the new file the latest modification time and recovery keeps times in rotation order, every operation keeps the files a suffix of the accepted events |
| `LogStore.RunInv` | internal/logging/manager.go:111-192 | that holds after every run |
| `LogStore.RunStrict` | internal/logging/manager.go:111-192 | over every run with timely rotations the files hold a suffix of the accepted events |
| `LogStore.FreshRun` | internal/logging/manager.go:56-73 | from an empty directory the history followed by the active file holds accepted events in order, none more often than accepted, within the total limit; with timely rotations a suffix of the accepted stream |
| `LogStore.WriteBound` | internal/logging/manager.go:111-134 | after each accepted write everything together is at most the total limit plus one file limit, or plus the one event when that alone is larger |
| `LogStore.WriteMeaning` | internal/logging/manager.go:111-134 | an event below the level changes nothing; one that fits, or finds the active file empty, is appended and the history stays; any other begins a new active file, the old one becomes the newest history file, and cleanup adds none |
| `LogStore.StreamIsLoud` | internal/logging/manager.go:115-117 | what a run of writes and clean-up ticks accepts is exactly what is at least as severe as the level |
| `LogStore.NothingIsLost` | internal/logging/manager.go:111-192 | from an empty directory, within one retention period and as long as the severe enough events leave room in the number of files and the total size, all of them are held in order, and in the active file alone while they fit into one |
| `LogStore.DefaultRoom` | internal/logging/policy.go:18-24 | the default policy leaves room for 110 MiB, however events are cut into files |
| `LogStore.TimedSortsToItself` | internal/logging/manager.go:243 | with strictly increasing modification times the directory order is the rotation order |
| `LogStore.RotationOrderIff` | internal/logging/manager.go:243 | every result of the unstable sort is the rotation order if and only if modification times strictly increase |
| `LogStore.TiesTearAHole` | internal/logging/manager.go:243-267 | a directory with equal modification times from which one clean-up tick removes the newer file and keeps the older |
| `LogStore.Manager.constructor` | internal/logging/manager.go:56-73 | a new manager over an empty directory has the default policy and satisfies the invariant |
| `LogStore.Manager.ManagedHistory` | internal/logging/manager.go:232-245 | the history is returned in some order by modification time |
| `LogStore.Manager.Cleanup` | internal/logging/manager.go:247-269 | for any order of the directory listing the loop removes exactly what the specification removes for that order and touches nothing else |
| `LogStore.Manager.Rotate` | internal/logging/manager.go:169-192 | the active events become the newest history file, the active file is empty, then cleanup |
| `LogStore.Manager.Write` | internal/logging/manager.go:111-134 | a write below the level changes nothing; one that fits is appended and leaves the history alone; one that would overflow the file rotates first and begins a new one; it keeps the invariant, and the suffix property when the rotation is timely |
| `LogStore.Manager.Apply` | internal/logging/manager.go:99-109 | a policy is applied exactly when each of its fields is within its bounds, with cleanup under the new limits, and both properties are kept |
| `ManifestRevision.HistoryAdvances` | internal/database/migration_managed_revision.go:15-20 | between any two moments without a rewritten primary key of the task, its revision and manifest both stand still, or the revision grows within the bound; aborted statements change nothing |
| `ManifestRevision.NoAba` | internal/database/migration_managed_revision.go:13-20 | revisions never decrease and stay within 63 bits; equal revisions at two moments between which no primary key of the task was rewritten mean the same manifest, row by row, then and at every moment between |
| `ManifestRevision.NoAbaContents` | internal/database/migration_managed_revision.go:13-20 | for every history of inserts, deletes and updates, rewritten primary keys included, equal revisions mean the same tracked values, each equally often, at both moments and at every one between |
| `ManifestRevision.RekeyingEscapes` | internal/database/migration_managed_revision.go:19 | an update of the primary key alone moves a row without a new revision |
| `ManifestRevision.QuietRowView` | internal/database/migration_managed_revision.go:17-20 | a change no trigger counts keeps the manifest row by row if and only if it rekeys no row of the task |
| `ManifestRevision.RevisionCounts` | internal/database/migration_managed_revision.go:15-20 | a statement raises a task's revision by exactly the number of its row changes that touch the task's manifest |
| `ManifestRevision.TouchesIff` | internal/database/migration_managed_revision.go:17-20 | a row change touches a task exactly when it changes on how many rows the task shows some tracked value |
| `ManifestRevision.RowDoneIff` | internal/database/migration_managed_revision.go:13-20 | one row change goes through exactly when its keys are free or present as it needs and each task it touches that has a row has an integer revision from 0 up to below the bound; then the rows are the plain change |
| `ManifestRevision.RowsDoneIff` | internal/database/migration_managed_revision.go:10-20 | the row changes of a statement go through exactly when every key fits and each task with a row has an integer revision r, 0 or more, with r plus the number of changes that touch it within the bound; then rows and revisions are the plain changes and those sums |
| `ManifestRevision.FirstRowGoesIn` | internal/database/migration_managed_revision.go:10-17 | the first row of a task whose revision is 0 goes in and makes it 1 |
| `ManifestRevision.Tables.BumpTask` | internal/database/migration_managed_revision.go:15 | the guarded bump succeeds exactly for a missing task or an integer revision from 0 up to below the bound, and then adds one |
| `ManifestRevision.Tables.RunRow` | internal/database/migration_managed_revision.go:16-20 | an insert, delete or update with its trigger is the specified row change |
| `ManifestRevision.Tables.Run` | internal/database/migration_managed_revision.go:13-20 | a statement goes through exactly when it is not rejected, every key fits and every task affords the changes that touch it; then all rows are changed and all revisions raised by those counts, otherwise nothing changes |
| `ProfileNames.CandidateFits` | internal/database/migrations.go:1489-1500 | for every 64-bit library identity and suffix up to 1000 truncation to 128 cuts nothing |
| `ProfileNames.CandidateMeaning` | internal/database/migrations.go:1488-1500 | a candidate is the source's name without surrounding white space, at most 96 characters of it or the fallback, followed by the mark with the library's identity, and from the second on by its number |
| `ProfileNames.CandidatesDiffer` | internal/database/migrations.go:1494-1501 | different suffixes give different normalized names |
| `ProfileNames.UniqueMigratedProfileName` | internal/database/migrations.go:1488-1510 | the loop returns the first candidate whose normalized name is free, and fails exactly when all 1000 are taken |
| `ProfileNames.TakenMany` | internal/database/migrations.go:1494-1507 | n taken candidates need n taken names |
| `ProfileNames.FreeCandidateExists` | internal/database/migrations.go:1494-1509 | with fewer than 1000 names taken a candidate is free |
| `NamingMigration.ExhaustedMeansMany` | internal/database/migrations.go:1509 | allocation fails only in a table of at least 1000 profiles |
| `NamingMigration.SharingPreserved` | internal/database/migrations.go:1446-1477 | libraries share a profile afterwards exactly when they shared profile and templates before |
| `NamingMigration.NewKey` | internal/database/migrations.go:1456-1473 | inserting a copy keeps new profiles and migrated keys in one-to-one correspondence |
| `NamingMigration.Database.FreeName` | internal/database/migrations.go:1488-1510 | the allocated name is free in the table; failure needs at least 1000 profiles |
| `NamingMigration.Database.InsertCopy` | internal/database/migrations.go:1457-1471 | exactly one row is added, a custom copy with the old rules and the library's templates, and the lookup by name finds that row |
| `NamingMigration.Database.ProfileFor` | internal/database/migrations.go:1455-1473 | a key is copied on first use only, and known keys keep their profile |
| `NamingMigration.Database.Migrate` | internal/database/migrations.go:1429-1486 | afterwards every library's profile carries its old four templates and rules, no old profile row changed, new profiles are exactly one per non-matching key, sharing is preserved; a missing profile is reported, and names run out only with 1000 profiles |
| `DefaultIngest.LeastExists` | internal/database/migrations.go:516-523 | a connection with an eligible library has a least one |
| `DefaultIngest.RulesMeaning` | internal/database/migrations.go:507-549 | the two rules on the columns: an enabled library on an enabled pan115 storage of the connection with intake of its own, or with a mode that moves or copies; order by sort column, then identity; an enabled offline downloader of the connection that listens |
| `DefaultIngest.ChosenAfterExplicit` | internal/database/migrations.go:507-525 | after the first update a connection is taken exactly when it has an explicit winner |
| `DefaultIngest.SelectedInFallback` | internal/database/migrations.go:527-549 | the second update selects exactly the least move-or-copy library of a listening connection without an explicit winner |
| `DefaultIngest.DefaultIsWinner` | internal/database/migrations.go:503-552 | after both updates a library is the default of a connection if and only if it is the explicit winner, or the fallback winner where there is no explicit one |
| `DefaultIngest.DefaultsUnique` | internal/database/migrations.go:503-552 | a connection is the default of at most one library |
| `DefaultIngest.DefaultExists` | internal/database/migrations.go:503-552 | a connection with an eligible library under either rule ends with a default |
| `DefaultIngest.ExplicitNeverDisplaced` | internal/database/migrations.go:527-549 | the second update leaves every row chosen by the first as it is |
| `LegacyRecovery.SettledIff` | internal/database/migration_legacy_artifact_no_io.go:15-45 | a proven candidate is settled if and only if neither its identity nor its run's is the empty value |
| `LegacyRecovery.ReconcileIff` | internal/database/migration_legacy_artifact_no_io.go:15-94 | column by column: a write is settled exactly when it is a quiescent artifact write of a run that failed or was superseded, ended without touching a file and without cleanup, through an ended, released artifact job with nothing but the run in its payload, without a published receipt and without any claim or indexed artifact |
| `LegacyRecovery.RefusalReachable` | internal/database/migration_legacy_artifact_no_io.go:26-28 | a database in which a proven candidate is turned down |
| `LegacyRecovery.ReconcileFrame` | internal/database/migration_legacy_artifact_no_io.go:32-44 | settling removes only the run's placeholders and changes only the one write |
| `LegacyRecovery.OthersUntouched` | internal/database/migration_legacy_artifact_no_io.go:53-94 | settling one candidate neither invalidates nor creates another |
| `LegacyRecovery.CandidatesShrink` | internal/database/migration_legacy_artifact_no_io.go:53-94 | settling removes exactly that candidate from the candidate set |
| `LegacyRecovery.ProgressNext` | internal/database/migration_legacy_artifact_no_io.go:107-117 | settling one more write keeps the account of what has changed since the start |
| `LegacyRecovery.SettleFromMeaning` | internal/database/migration_legacy_artifact_no_io.go:107-117 | a batch of candidates is settled whole, each write accounted for, or up to one with an empty identity |
| `LegacyRecovery.Tx.SelectBatch` | internal/database/migration_legacy_artifact_no_io.go:100-103 | the query returns the first 250 candidates by identity, all of them when there are fewer |
| `LegacyRecovery.Tx.ReconcileWrite` | internal/database/migration_legacy_artifact_no_io.go:15-45 | the row operations are the specified reconciliation |
| `LegacyRecovery.Tx.SettleBatch` | internal/database/migration_legacy_artifact_no_io.go:107-117 | the inner loop is the specified settling of the batch |
| `LegacyRecovery.Tx.Recover` | internal/database/migration_legacy_artifact_no_io.go:98-119 | the loop ends; it succeeds if and only if no candidate has an empty identity, and then no candidate is left, exactly the candidates are settled, and every other row is unchanged |
| `MigrationRunner.InvStep` | internal/database/migrations.go:34-79 | every step, crash and restart keeps the committed versions a prefix, the violations those an uninterrupted run of it leaves, and each check judged once |
| `MigrationRunner.RunInv` | internal/database/migrations.go:34-79 | that holds after every sequence of crashes and restarts |
| `MigrationRunner.CommittedIsPrefix` | internal/database/migrations.go:27-87 | from a fresh database the committed migrations are a prefix of the list, each once, with the violations an uninterrupted run of it leaves, and a successful process leaves the history of an uninterrupted one |
| `MigrationRunner.SourceHistory` | internal/database/migrations.go:27-103 | for the repository's list a finished process has committed 1 to 127 in order |
| `MigrationRunner.SourceChecks` | internal/database/migrations.go:51-103 | for the repository's list, once a process has finished, each of the six versions 18, 20, 35, 44, 97 and 119 has passed its check or been abandoned in it |
| `MigrationRunner.PassedVouches` | internal/database/migrations.go:64-71 | a passed check vouches for every migration up to its own: no violation stood anywhere in the database after that commit |
| `MigrationRunner.StandingUnseen` | internal/database/migrations.go:51-71 | violations that have stood since some commit have met no passed check since |
| `MigrationRunner.CheckedIffNotAbandoned` | internal/database/migrations.go:51-71 | when a process finishes, the own check of a migration has passed if and only if no process failed it, met an error in it or died in it |
| `MigrationRunner.NeverCheckedAgain` | internal/database/migrations.go:34-71 | the own check of a recorded version that has not passed and is not running never runs again, in any continuation |
| `MigrationRunner.FailedCheckForgotten` | internal/database/migrations.go:39-41 | a failed check is skipped by the next process, which finishes while the violations stand |
| `MigrationRunner.StandingViolationBlocks` | internal/database/migrations.go:64-79 | two migrations of which the first leaves violations and the second keeps them: after the first has failed its check, no restarted process can finish |
| `MigrationRunner.FinishNeedsClear` | internal/database/migrations.go:51-79 | a process that finishes meets no standing violation in any check still to come |
| `MigrationRunner.CanFinish` | internal/database/migrations.go:34-87 | a living process can finish if and only if no check still to come meets a standing violation, whichever migration left it |
| `MigrationRunner.Schema.ApplyOne` | internal/database/migrations.go:42-78 | one missing migration commits with its record, the whole database is checked after the commit, and it goes through exactly when no error occurs and the check meets no violation |
| `MigrationRunner.Schema.CheckOne` | internal/database/migrations.go:64-71 | the check passes exactly when it meets no error and no violation stands, and counts as passed then only |
| `MigrationRunner.Schema.Advance` | internal/database/migrations.go:34-79 | a recorded version is skipped, a missing one applied |
| `MigrationRunner.Schema.Migrate` | internal/database/migrations.go:27-87 | the loop is one run of the state machine; it succeeds if and only if every missing migration goes through, and then the checks that have passed are those passed before the start and those of the missing migrations |
| `Base64.JoinSplit` | internal/credential/store.go:61 | splitting bytes into six-bit groups loses nothing, for every length |
| `Base64.DecodeEncode` | internal/credential/store.go:101-104 | unpadded decoding (section 3.2 of RFC 4648) inverts encoding |
| `Base64.EncodeInjective` | internal/credential/store.go:61 | different byte strings have different encodings |
| `Base64.TestVectors` | internal/credential/store.go:61 | the encoding of "foobar" from section 10 of RFC 4648, and the two letters it does not use |
| `Base64.DecodeEncodePadded` | internal/credential/store.go:103-104 | padded decoding inverts padded encoding (section 4 of RFC 4648) |
| `Base64.RawOfPadded` | internal/credential/store.go:101-104 | the unpadded decoder refuses a padded encoding that has padding, so the second attempt is needed |
| `Base64.BreakIsSkipped` | internal/credential/store.go:101-104 | a line break anywhere in the text changes neither decoding |
| `KeyFile.KeyRoundTrip` | internal/credential/store.go:99-109 | what a process writes, line end included, decodes to its key |
| `KeyFile.AnyWritingDecodes` | internal/credential/store.go:99-109 | a 32-byte key is read back however it was written, padded or not, with any white space around it |
| `KeyFile.StepKeeps` | internal/credential/store.go:83-95 | no step of any process changes a published key file |
| `KeyFile.InvStep` | internal/credential/store.go:41-97 | every step keeps temporary files private, fully written before publication, and every returned key equal to what the file decodes to |
| `KeyFile.RunInv` | internal/credential/store.go:41-97 | that holds for any number of processes, interleavings and crashes |
| `KeyFile.OneKey` | internal/credential/store.go:41-97 | all processes that succeed through the key file return the same key |
| `KeyFile.KeyFileStays` | internal/credential/store.go:83-95 | once present the key file keeps its inode and its text |
| `KeyFile.PublishedDecodes` | internal/credential/store.go:62-95 | starting without a key file, whatever is published decodes |
| `SearchStream.StepInv` | internal/handlers/site_search_stream.go:76-170 | every guarded call keeps the invariant, failing writes and encodings included |
| `SearchStream.RunInv` | internal/handlers/site_search_stream.go:76-170 | that holds for every mutex order of calls |
| `SearchStream.BudgetsHold` | internal/handlers/site_search_stream.go:112-121 | on version 2 total and interim bytes stay within their limits, and an unfailed stream has sent whole frames only |
| `SearchStream.RunBudgets` | internal/handlers/site_search_stream.go:76-170 | after any run from a sound stream the wire holds what was counted, within both limits, and whole frames only unless it failed |
| `SearchStream.NothingAfterFailure` | internal/handlers/site_search_stream.go:109-111 | after the first failure, or the end of the request, no byte is sent |
| `SearchStream.OutputGrows` | internal/handlers/site_search_stream.go:108-136 | frames already sent are never changed or reordered |
| `SearchStream.FrameMeaning` | internal/handlers/site_search_stream.go:108-136 | when the peer takes it, a frame is delivered exactly on an open stream and, on version 2, when it is final or within 8 MiB of interim bytes and neither longer than 384 KiB nor beyond 12 MiB in all; an interim frame beyond its budget is dropped and the stream lives on, one beyond the limits ends it |
| `SearchStream.FinalMeaning` | internal/handlers/site_search_stream.go:138-148 | a group is final unless it says it is incomplete, a progress event when nothing is left to do, anything else in the closing events only |
| `SearchStream.EventNotes` | internal/handlers/site_search_stream.go:144-147 | the progress kept for the closing event is the last one a progress event carried |
| `SearchStream.StartOpens` | internal/handlers/site_search_stream.go:76-89 | starting sends no frame; it opens a fresh stream when the client is reached, kills it when not, and does nothing to one that has started or failed |
| `SearchStream.FinalsAreDelivered` | internal/handlers/site_search_stream.go:113-118 | however many interim frames are offered, every final frame and heartbeat of a healthy run is delivered as long as those alone fit into the reserved four megabytes |
| `SearchStream.SiteSearchStream.Start` | internal/handlers/site_search_stream.go:76-89 | the stream starts once, and not after a failure |
| `SearchStream.SiteSearchStream.WriteLocked` | internal/handlers/site_search_stream.go:108-136 | the whole new state of a guarded write, with refusal, limit failure, short write and failed flush; the invariant is kept |
| `SearchStream.SiteSearchStream.Event` | internal/handlers/site_search_stream.go:138-156 | an event notes progress, fails on an unencodable value, and offers a frame that is final by the source's rule |
| `SearchStream.SiteSearchStream.Heartbeat` | internal/handlers/site_search_stream.go:162-170 | a heartbeat is offered as a final frame |
| `SearchStream.SiteSearchStream.Interlude` | internal/handlers/site_search_stream.go:60-70 | calls of other goroutines run as specified and keep the invariant |
| `SearchStream.SiteSearchStream.Finish` | internal/handlers/site_search_stream.go:172-188 | one closing event decided by the fields read first, whatever other calls come before the context check and before the event; a plain error answer exactly when an error meets a live stream that never started |
| `Recognition.UnitsPartition` | internal/medialibrary/group.go:56-69 | a unit holds each file of its key as often as the input, and no other file |
| `Recognition.UnitsConserve` | internal/medialibrary/group.go:34-76 | all units together are a permutation of the input |
| `Recognition.DiscGroup` | internal/medialibrary/group.go:106-117 | everything below the first disc folder belongs to the directory around it and is named after it |
| `Recognition.MovieGroup` | internal/medialibrary/group.go:99-103 | a film in a directory belongs to that directory and is named after it |
| `Recognition.RootMovieGroup` | internal/medialibrary/group.go:99-102 | a film at the root is a group of its own |
| `Recognition.EpisodeGroup` | internal/medialibrary/group.go:83-97 | an episode in a season folder or a season release belongs to the directory of the show, wherever that lies |
| `Recognition.ShowGroup` | internal/medialibrary/group.go:83-97 | an episode in a directory that is no season of another belongs to that directory |
| `Recognition.TopShowGroup` | internal/medialibrary/group.go:83-97 | the same for a directory directly below the root |
| `Recognition.RootSeasonGroup` | internal/medialibrary/group.go:83-96 | a season folder directly below the root has no show: its episodes go by their title, like those at the root |
| `Recognition.RootEpisodeGroup` | internal/medialibrary/group.go:90-96 | an episode at the root goes by its series title without regard to case, or by its own name without the extension |
| `Recognition.SeasonsShareUnit` | internal/medialibrary/group.go:34-97 | episodes of two season folders of one show lie in one unit, which is named after the show |
| `Recognition.FingerprintIff` | internal/medialibrary/group.go:144-166 | fingerprints agree exactly when media type and trimmed name do, and for single files also path, sizes and times |
| `Recognition.ReplacementShows` | internal/medialibrary/group.go:150-163 | a file replaced in place changes the fingerprint of its unit exactly when the unit is a single file at the root |
| `Recognition.FillBuckets` | internal/medialibrary/group.go:42-54 | the loop puts every file into the bucket of its key in input order and names a bucket after its first file |
| `Recognition.MakeUnits` | internal/medialibrary/group.go:56-69 | one unit per bucket, with its files sorted by path |
| `Recognition.FilesInOrder` | internal/medialibrary/group.go:58-60 | the files of a unit are in ascending order of their normalised paths |
| `Recognition.GroupRecognitionUnits` | internal/medialibrary/group.go:34-76 | one unit per key, each built from exactly the files of its key, together a permutation of the input, ordered by name and hashed source key |
| `Recognition.TvDirectoryIsStable` | internal/medialibrary/group.go:119-166 | a TV-directory unit keeps source key, fingerprint and name whatever other files come or go, while one of its files remains |
| `Recognition.SourceKeyPermutes` | internal/medialibrary/group.go:119-142 | the source key does not depend on the order of the files |
| `Recognition.AnchorIff` | internal/medialibrary/group.go:119-142 | a unit is anchored at an identity exactly when it is no TV unit, every file has a stable identity that is not blank, and this is the smallest of them; otherwise it goes by its group |
| `Recognition.JoiningKeepsSourceKey` | internal/medialibrary/group.go:119-142 | wherever a file that joins a unit sorts, the source key stays if and only if the group is a TV group, was not anchored, or the newcomer is stable and not smaller than the anchor |
| `Recognition.JoiningMovesAnchor` | internal/medialibrary/group.go:130-139 | two units of one film directory, before and after a file with a smaller identity joins, with different source keys |
| `Recognition.EvidenceIsSmallest` | internal/medialibrary/group.go:171-184 | the evidence is the 32 smallest files by path and provider identity, in order |
| `Recognition.EvidenceIgnoresOrder` | internal/medialibrary/group.go:171-184 | with distinct pairs of path and provider identity the evidence does not depend on input order |

## Left out

- Bfs.ListProviderDirectory: has no result on a provider that announces more pages for ever, where the source's loop does not end either.
- Bfs.WalkGraph: every directory of the provider has a listing that ends, for the same reason.
- LogStore.Manager.Write: failing file operations are not modelled; a crash between rename and compression is, as a restart after a torn rotation.
- LogStore.NothingIsLost: speaks of runs without policy changes and restarts, and takes it that compressing a file adds at most one MiB to it.
- Paths.WantedIsFile: for paths spelled by names without a step upwards, a line break or white space at the end; `Paths.ProjectMeaning` and `Paths.ProjectFails` cover all paths.
- Recognition.EpisodeGroup: like the other laws about groups, for such paths without backslashes.
- LogQuery.RunQuery: how a byte budget cuts a file into lines is not modelled; a read returns some prefix of the entries, and all of them unless it reports an error.
- ManifestRevision.NoAbaContents: SQLite's REPLACE conflict resolution, which removes rows without the delete trigger, is not an operation of the model; the repository does not use it.
- ManifestRevision.NoAba: leaves out updates that rewrite primary keys of the task, for which it is false; `ManifestRevision.NoAbaContents` covers them.
- NamingMigration.Database.Migrate: row timestamps are not modelled, and a failure of the database itself is a rollback outside the model.
- MigrationRunner.CommittedIsPrefix: one migrating process at a time; of what a single migration does, only whether violations stand after it is modelled, as a function of whether they stood before; the seeds that follow the loop are not.
- Pipeline.CompleteIff: a driver returns nil only at the end of its stream or after its callback has reported the cancellation.
- TreeScan.BfsMatchesBulk: compares files, assets and completeness; the breadth-first scan reports no enumeration count and lists directories in its own order.
- Local scanning, single-file inspection and the scoped projection of already verified entries: dominated by operating-system calls, or the same fold again.
- Filename parsing by regular expressions: the parser and the season-directory tests are parameters.
- SHA-256, gzip, JSON and AES-GCM: hashes are injective, compressed sizes, frame texts and token lengths are parameters.
- Unicode case mapping beyond ASCII, and Windows path separators in cleaning: lower-casing maps one character to one character.
- The environment variable as key source, file permissions and removal of temporary files in key publication.
- Uniqueness of units for disc folders and root-level series: their keys do not determine media type and package name.
- Deletion of transfer tasks: a task row that exists stays.
- HTTP handlers, authorization, schema-only migrations, log redaction, classification and version comparison: no property beyond one function.
