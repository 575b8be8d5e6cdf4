# QueryGate admin and operations layer, in Dafny

QueryGate is a governed query gateway. This project models the algorithms of its
admin and operations layer and proves what they promise, over all inputs, all
runs and all interleavings. `dafny verify dfyconfig.toml` checks everything.

| component | modules |
|---|---|
| observed query shapes: skeletons, template drafts, alias canonicalization, the bounded store | Skeleton, SkeletonMeaning, NamingMeaning, ParameterNames, TemplateBinding, NameCollision, AliasCanonical, AliasMeaning, AliasLimits, ShapeHistory, ShapeStore |
| drafts: the encrypted per-principal store, whole runs of it | DraftStore, DraftIsolation, DraftSkew, DraftLifetime |
| audit tail scan and anomaly detector, from the bytes of the file up | ReverseReader, TailScan, AnomalyDetector, AnomalyMeaning |
| resolved-access diff and blast radius | PolicyModel, PolicyMeaning, AccessDiff, AccessDuality, AccessCompleteness, AccessEnforcement, AccessReport, AccessCollector, AccessCoverage, AccessExact, AccessLayers, Paging, BlastRadius, BlastRanking, BlastExact, BlastGaps, BlastMissed |
| live reload and the lease monitor | ConfigReload, LeaseMonitor |
| write-once first boot | FirstBoot |
| schema pruning, metric rollup, connection budget | SchemaPrune, Rollup, Overview, PoolBudget |
| shared: JSON trees, dumped queries, numerals, Python's sorts and tuple order, counting | Json, DumpedQuery, Text, StableSort, TupleOrder, Counting |

Each component has three layers: a specification that does not mention how the
code works (a history, a plain filter, a least fixed point, direct sums), the
code's own step-by-step form (classes and loops where the source mutates state),
and theorems that connect the two or relate whole runs. The `Meaning` and `Exact`
modules say what the specifications mean in terms of the inputs, with every key,
word, constant and layer spelled out.

## What the code does not do

Properties that are false of the code are kept, with a concrete input and the
exact condition under which they hold.

- The allocator is documented as collision-free and is not: columns `c, c, c_2`
  give `c_2` twice (`NamesCollide`; exact condition `NamesDistinctIff`).
- Dotted `alias.column` references keep the alias text in the tree that is
  hashed, so renaming such an alias changes the hash (`DottedReferencesKeepAlias`;
  exact condition `FullRenamingIff`).
- A bare string that reads as a token of its own skeleton is confused with an
  alias reference (`TokenLeafConfused`; exact condition `DecidedIff`).
- The run-length exit of the tail scan can lose an in-window event in a file that
  is not in time order, and only its own flag says so (`RunExitCanLose`; exact
  condition `ScanAgainstFilter`).
- A clock that runs ahead on one request prunes another principal's live draft
  (`SkewedClockInterferes`; exact condition for one operation
  `OtherStepInvisibleIff`, a condition for whole runs `SkewedNonInterference`); a
  draft half-written by a crash stays listed though
  it cannot be loaded (`DraftListed`).
- A disposal that fails leaves other stale engines cached
  (`FailedDisposalLeavesStale`; exact condition over whole runs
  `ReloadSettlesIff`), and no later reload that keeps their profiles repairs it
  (`SkippedEngineSurvives`).
- A reload keeps engines that were built with an older query timeout, although
  its comment names the semaphore as the only cached part of a policy
  (`TimeoutLeftBehind`; exact condition `TimeoutReloadIff`).
- A lease expiry reported again after another one is acted on again
  (`ForgottenExpiryRepeats`; exact condition `NeverTwiceIff`).
- A crash between creating and writing a seed file leaves it empty for good
  (`KeyLost`, `CrashLeavesEmpty`; exact outcome of every run `SeedingOutcome`).
- Dropping a table's column allow-list opens its columns with an empty diff and
  no note (`DroppedListUnreported`); widening the wildcard column list opens a
  column unreported on tables no policy names (`WildcardColumnUnreported`); the
  exact gaps are `ColumnGapIff` and `QuietColumnsIff`.
- Of two mandatory filters on one column the earlier one can go unreported
  (`ShadowedFilterUnreported`; exact condition `FilterGapIff`).
- A policy can move its connection to another join group unreported
  (`PolicyGroupUnreported`; exact condition `GroupGapIff`), and a changed write
  policy is never reported (`WritesUnreported`).
- Switching the purpose gate on lists the permitted purposes as loosening, and
  switching it off lists them as tightening (`GateMisread`; exact condition
  `PurposeEntryTrueIff`).
- Each diff is cut by connection before category, so a severe loosening change
  can be lost before the blast-radius ranking sees it, although the report says
  that the full set remains visible (`SevereChangeLost`; exact condition
  `RanksEverythingIff`).
- An overridden principal whose access changes in one of these gaps only is shown
  by no request (`MissedPrincipal`; exact conditions `NeverShownIff` and
  `MissedExactly`).
- Removing a hidden connection reads as tightening, adding one as neutral
  (`HiddenBreaksMirror`; exact condition `ReversalDuality`).
- The pool sizing comment says the budget is honored whatever the worker count;
  next to a full-size baseline it is up to 20 workers and no further
  (`TooManyWorkers`; exact condition `SizingWithinBudget`).
- A page size of 0 never advances the blast-radius cursor (`CursorStopsIff`).

## Model

| member | source | states |
|---|---|---|
| `Skeleton.WalkIsClean` | src/querygate/admin/observed_shapes.py:210-265 | no literal key of a skeleton the walk returns holds anything but a placeholder, for every tree |
| `Skeleton.SkeletonDecidesShape` | src/querygate/admin/observed_shapes.py:135-279 | two queries that differ only in dropped text and in literals of one inferred type get one skeleton and one parameter list or both fail; conversely, equal outcomes come only from such queries |
| `Skeleton.WalkSucceeds` | src/querygate/admin/observed_shapes.py:210-242 | the walk fails exactly when some literal has no slot type |
| `Skeleton.RecheckNeverFires` | src/querygate/admin/observed_shapes.py:245-279 | the fail-closed re-check after the walk never fires: skeletonization fails exactly when a literal has no slot type |
| `Skeleton.WalkAppends` | src/querygate/admin/observed_shapes.py:180-242 | parameters are only ever appended |
| `Skeleton.ParameterAllocator.Allocate` | src/querygate/admin/observed_shapes.py:192-207 | one call changes counters and parameters as specified, or fails and changes nothing |
| `Skeleton.WalkNode` | src/querygate/admin/observed_shapes.py:210-242 | the recursion that mutates the allocator computes the specified walk and leaves the specified allocator |
| `Skeleton.SkeletonizeQuery` | src/querygate/admin/observed_shapes.py:268-279 | one walk with a new allocator, then the re-check, computes the specified shape or fails |
| `SkeletonMeaning.NoIntent` | src/querygate/admin/observed_shapes.py:122-125 | no object of a recorded skeleton, at any depth, has the key `intent` |
| `SkeletonMeaning.IntentInvisible` | src/querygate/admin/observed_shapes.py:122-225 | taking every `intent` out of a query, wherever it stands, changes neither its skeleton nor its parameters |
| `SkeletonMeaning.IntentDropped` | src/querygate/admin/observed_shapes.py:122-225 | in particular a query recorded with a text and without it is one shape, for every text |
| `SkeletonMeaning.StructureKept` | src/querygate/admin/observed_shapes.py:77-242 | a skeleton keeps every field of the query in order and with its value, but for `intent` and the nine value keys; each of those holds exactly a parameter reference, unless the query had null there |
| `SkeletonMeaning.SlotTypes` | src/querygate/admin/observed_shapes.py:132-163 | a slot has the type of the value it stands for; a boolean is no integer, and a list has the one type of all its elements or none |
| `NamingMeaning.ParametersNamed` | src/querygate/admin/observed_shapes.py:180-242 | parameters are the values of the query in order, each named after its column (`value`, `literal`) or its key, with _2, _3 and so on from the second use of a stem on |
| `NamingMeaning.LastSegmentCounts` | src/querygate/admin/observed_shapes.py:166-177 | only what follows the last dot of a column reference makes the stem |
| `NamingMeaning.GapIsUnderscore` | src/querygate/admin/observed_shapes.py:166-177 | a run of characters no identifier has counts as one underscore |
| `NamingMeaning.OuterUnderscores` | src/querygate/admin/observed_shapes.py:166-177 | outer underscores do not count; with the two laws above and `PlainStem` this determines the stem of every hint |
| `NamingMeaning.PlainStem` | src/querygate/admin/observed_shapes.py:166-177 | what is left is the stem, or `param` if it is empty or starts with a digit |
| `ParameterNames.NamesDistinctIff` | src/querygate/admin/observed_shapes.py:180-207 | allocated names are distinct exactly when no used stem equals another used stem plus a suffix the latter really received |
| `ParameterNames.ShapeNamesDistinctIff` | src/querygate/admin/observed_shapes.py:192-279 | the same for the parameters of any recorded query |
| `ParameterNames.PromotableIff` | src/querygate/templates/models.py:192-197 | a shape passes the template's case-insensitive name check exactly when its stems are spelled consistently and do not clash once folded |
| `TemplateBinding.PlaceholdersAreParameters` | src/querygate/admin/observed_shapes.py:210-279 | placeholders in walk order are the declared parameters in order, each typed after the value it replaced |
| `TemplateBinding.SubstituteRestores` | src/querygate/templates/binding.py:70-81 | substitution into a skeleton yields the stripped query exactly when each slot gets its own value and nothing else reads as a placeholder |
| `TemplateBinding.FillRestoresIff` | src/querygate/admin/observed_shapes.py:210-279 | filling the slots with the original values restores the query minus dropped and null keys exactly when equal names stand for equal values (and no caller structure imitates a placeholder) |
| `TemplateBinding.OwnSlotAccepts` | src/querygate/templates/binding.py:23-50 | a value passes the slot inferred from it unless it nests lists |
| `TemplateBinding.SlotTakes` | src/querygate/templates/binding.py:23-50 | a slot takes exactly the values of its own type, and integers where it wants numbers; a list slot a non-empty list of these |
| `TemplateBinding.PromotionRoundTrip` | src/querygate/templates/binding.py:52-99 | a promoted draft bound with the original values gives the query back, with the exact condition |
| `NameCollision.StemIsColumn` | src/querygate/admin/observed_shapes.py:166-177 | a qualified column whose name has no outer underscore is its own stem |
| `NameCollision.NamesCollide` | src/querygate/admin/observed_shapes.py:180-207 | a dumped query with three filters on columns `c`, `c` and `c_2` gets two names for three values, for every such column, and its draft is refused |
| `AliasCanonical.CanonicalIsReplacement` | src/querygate/admin/observed_shapes.py:288-346 | collection covers every alias the rewrite meets, so the rewrite is a plain replacement and mints no token of its own |
| `AliasCanonical.RenamingKeepsCanonical` | src/querygate/admin/observed_shapes.py:285-346 | an injective, capture-free renaming of aliases leaves the canonical tree unchanged |
| `AliasCanonical.CanonicalIffAlpha` | src/querygate/admin/observed_shapes.py:285-346 | two skeletons in which no bare string reads as one of their own tokens have one canonical tree exactly when one is an alias renaming of the other |
| `AliasMeaning.RenamingKeepsTree` | src/querygate/admin/observed_shapes.py:285-346 | the same with the aliases told as the strings under `alias`, `from_alias` and `name` at any depth: renaming CTEs like tables and columns keeps the hashed tree |
| `AliasMeaning.SameTreeIff` | src/querygate/admin/observed_shapes.py:285-346 | and where no bare string reads as a token nothing else keeps it |
| `AliasMeaning.TokensInOrder` | src/querygate/admin/observed_shapes.py:310-346 | in the hashed tree the aliases are #1, #2 and so on in the order in which they first appear |
| `AliasLimits.FullRenamingIff` | src/querygate/admin/observed_shapes.py:288-346 | renaming aliases throughout, qualified references included, keeps the canonical tree exactly when no renamed alias qualifies a column reference |
| `AliasLimits.DottedReferencesKeepAlias` | src/querygate/admin/observed_shapes.py:302-306 | a dumped query where it does not |
| `AliasLimits.DecidedIff` | src/querygate/admin/observed_shapes.py:288-346 | the canonical tree decides alpha-equivalence against every unconfused skeleton exactly when no bare string of this one reads as one of its own tokens |
| `AliasLimits.TokenLeafConfused` | src/querygate/admin/observed_shapes.py:302-306 | a dumped query whose declared purpose reads as a token shares its canonical tree with another that is no renaming of it |
| `AliasCanonical.CollectAliases` | src/querygate/admin/observed_shapes.py:310-319 | the collecting recursion fills the table as specified |
| `AliasCanonical.CanonicalizeAliases` | src/querygate/admin/observed_shapes.py:288-307 | the rewriting recursion, mutating the table as it goes, computes the specified tree and table |
| `AliasCanonical.ComputeShapeHash` | src/querygate/admin/observed_shapes.py:322-346 | the hash is the digest of the canonical tree |
| `ShapeHistory.RecencyOrdersByLastHit` | src/querygate/admin/observed_shapes.py:447-457 | the recency list holds each key hit once, in the order of its last hit |
| `ShapeHistory.KeptStep` | src/querygate/admin/observed_shapes.py:486-528 | how one more hit changes the last `cap` distinct keys: a refresh moves its key to the end, a creation drops the oldest of a full record |
| `ShapeHistory.HitsConserved` | src/querygate/admin/observed_shapes.py:486-528 | hits of kept entries plus hits lost with evicted ones are all hits; evictions plus kept entries are all insertions |
| `ShapeStore.KeyInjective` | src/querygate/admin/observed_shapes.py:503-507 | the row key confuses no two rows of equal-length digests and colon-free connection ids, except an absent with an empty principal |
| `ShapeStore.VariantsShareRow` | src/querygate/admin/observed_shapes.py:268-346 | queries of one shape, or equal up to an alias renaming, share a hash whatever the digest |
| `ShapeStore.RefreshReflects` | src/querygate/admin/observed_shapes.py:508-514 | refreshing an entry and moving it to the end reflects one more hit |
| `ShapeStore.CreateReflects` | src/querygate/admin/observed_shapes.py:515-528 | adding an entry and evicting the oldest of a full record reflects one more hit |
| `ShapeStore.RankedRows` | src/querygate/admin/observed_shapes.py:530-541 | exactly the entries of the connection and principal asked for, by falling use count, then by first sighting |
| `ShapeStore.FirstMatch` | src/querygate/admin/observed_shapes.py:543-565 | the least recently seen match, or none exactly when nothing matches |
| `ShapeStore.ShapeRecorder.constructor` | src/querygate/admin/observed_shapes.py:458-479 | an empty recorder satisfies the invariant |
| `ShapeStore.ShapeRecorder.Record` | src/querygate/admin/observed_shapes.py:486-528 | keeps the invariant that keys, order, entries and eviction count are those of the history of successful records; the entry returned has one occurrence more and this sighting last, or is new with one; a disabled or failing record adds nothing but a failure count |
| `ShapeStore.ShapeRecorder.Touch` | src/querygate/admin/observed_shapes.py:508-528 | the critical section adds exactly one hit to the history |
| `ShapeStore.ShapeRecorder.ListShapes` | src/querygate/admin/observed_shapes.py:530-541 | the ranked, filtered entries; nothing is changed |
| `ShapeStore.ShapeRecorder.Get` | src/querygate/admin/observed_shapes.py:543-565 | the least recently seen match; nothing is changed |
| `ShapeStore.ShapeRecorder.Counters` | src/querygate/admin/observed_shapes.py:567-573 | evicted plus present equals inserted, size within the cap, present plus evicted hits equal successful records |
| `ShapeStore.ShapeRecorder.Clear` | src/querygate/admin/observed_shapes.py:589-593 | history and counters start over |
| `ShapeStore.ShapeRecorder.ClearSync` | src/querygate/admin/observed_shapes.py:575-587 | the same, and recording is off |
| `DraftStore.DraftFiles.PruneExpired` | src/querygate/admin/draft_store.py:157-164 | removes exactly the directories whose readable manifest has expired, in any visiting order |
| `DraftStore.DraftFiles.SaveDraft` | src/querygate/admin/draft_store.py:187-232 | prune, refuse at the cap, else write manifest and sealed bundle: the specified step |
| `DraftStore.DraftFiles.ListForPrincipal` | src/querygate/admin/draft_store.py:234-246 | exactly the owner's unexpired drafts, newest first |
| `DraftStore.DraftFiles.LoadDraft` | src/querygate/admin/draft_store.py:248-268 | the specified answer, changing nothing: a bundle exactly when it was sealed under this key and its readable manifest names this owner and has not expired |
| `DraftStore.DraftFiles.DeleteDraft` | src/querygate/admin/draft_store.py:270-274 | the specified step |
| `DraftIsolation.AnswersArePrivate` | src/querygate/admin/draft_store.py:157-274 | in any run with fresh ids and a monotone clock each principal's answers are those of a store of its own |
| `DraftIsolation.NonInterference` | src/querygate/admin/draft_store.py:157-274 | deleting every other principal's operations from a run, crashing saves included, leaves each answer unchanged, whatever drafts and unreadable manifests are on disk at the start |
| `DraftIsolation.OtherStepInvisibleIff` | src/querygate/admin/draft_store.py:157-274 | whatever the clocks, another principal's operation hides nothing from one from a time on exactly when it does not prune, or none of its drafts expires after that time and not after that operation's clock |
| `DraftSkew.SkewedNonInterference` | src/querygate/admin/draft_store.py:157-274 | whatever the clocks: the answers stay unchanged as long as no other principal's pruning operation has a clock at or past the expiry of a draft its owner can still see later in the run |
| `DraftSkew.MonotoneIsHarmless` | src/querygate/admin/draft_store.py:157-274 | a clock that never runs backwards is one case of it |
| `DraftIsolation.SkewedClockInterferes` | src/querygate/admin/draft_store.py:157-164 | without a monotone clock it fails: a listing with a clock ahead prunes another's live draft |
| `DraftLifetime.DraftFate` | src/querygate/admin/draft_store.py:157-274 | after any later run a load returns exactly the saved bundle, to its owner only, until deletion or expiry; a half-written draft is not found |
| `DraftLifetime.DraftListed` | src/querygate/admin/draft_store.py:187-246 | until then the draft is listed, even a half-written one |
| `DraftLifetime.ReachableDisk` | src/querygate/admin/draft_store.py:187-274 | in every reachable state, crashes included, every bundle has a manifest and under a fixed cap no owner exceeds it |
| `ReverseReader.SplitConcat` | src/querygate/audit/file_reader.py:104-121 | splitting a concatenation at newlines joins only the two segments at the seam |
| `ReverseReader.ChunkYields` | src/querygate/audit/file_reader.py:94-119 | one chunk adds exactly its completed lines and carries the first segment over |
| `ReverseReader.LinesOfParts` | src/querygate/audit/file_reader.py:104-121 | the lines of two files with a newline in between are those of the second, then those of the first; a text without newline is one line unless it is empty |
| `ReverseReader.IterLinesReverse` | src/querygate/audit/file_reader.py:59-121 | for every file and chunk size the lines read are a front part of the reversed non-empty lines, all of them unless it raises, and it raises only for a torn read, a long line or a long file |
| `TailScan.ScanAgainstFilter` | src/querygate/admin/anomaly.py:423-495 | the kept list is a front part of the plain filter of the whole file, all of it exactly when no in-window event lies beyond the stop point, and always when both flags are false |
| `TailScan.RunExitSafeInOrder` | src/querygate/admin/anomaly.py:460-495 | on a file in time order the run-length exit loses nothing |
| `TailScan.RunExitCanLose` | src/querygate/admin/anomaly.py:460-495 | off such a file it can |
| `TailScan.ScanTail` | src/querygate/admin/anomaly.py:423-495 | the loop over counters and flags computes the specified scan, stays within both caps and stops early only for a reason |
| `TailScan.LoadEvents` | src/querygate/admin/config_trends.py:275-345 | from bytes to events, for query and change events alike, told over the lines of the file: kept are valid events in lines whose envelope verifies, or is missing where none is required, with a time in the window, in order; all of them exactly when none lies beyond the lines read, always when both flags are false or the events are in time order and only the run exit fired; with both flags false the malformed count is the number of lines that are not JSON, forged, without a required envelope or of the right type and invalid; an absent file has no events |
| `AnomalyDetector.DirectPermutes` | src/querygate/admin/anomaly.py:242-283 | every principal's windows are independent of event order |
| `AnomalyDetector.WindowsPartition` | src/querygate/admin/anomaly.py:258-283 | recent and baseline windows partition the scanned window |
| `AnomalyDetector.DirectFromScan` | src/querygate/admin/anomaly.py:242-283 | windows of a complete scan equal those of every valid event of the file |
| `AnomalyDetector.FlaggedIff` | src/querygate/admin/anomaly.py:305-367 | a principal is flagged exactly when both windows carry enough traffic and its rate, rejected share or connections moved as configured |
| `AnomalyDetector.VolumeSpikeIff` | src/querygate/admin/anomaly.py:313-323 | the rate comparison, told without division |
| `AnomalyDetector.NewConnectionsNamed` | src/querygate/admin/anomaly.py:350-367 | only connections new to the principal are named, and one is left out only beyond the cap |
| `AnomalyDetector.MaxScoreIsMax` | src/querygate/admin/anomaly.py:228-239 | the ranking score is attained by a signal and exceeded by none |
| `AnomalyDetector.PrincipalSignals` | src/querygate/admin/anomaly.py:305-367 | computes the specified signals in order |
| `AnomalyDetector.Accumulate` | src/querygate/admin/anomaly.py:259-283 | the fold leaves each principal the windows counted directly, and no entry for anyone else |
| `AnomalyDetector.DetectAnomalies` | src/querygate/admin/anomaly.py:242-302 | a capped ranking of the table of flagged principals: distinct exact rows, sorted, truncated exactly beyond the cap, no principal cut outranks a kept one |
| `AnomalyDetector.TableFromScan` | src/querygate/admin/anomaly.py:498-531 | the table of a complete scan is the table of the whole file |
| `AnomalyDetector.BuildReport` | src/querygate/admin/anomaly.py:498-531 | scan and detector compose, told over the lines of the file: whenever the scan kept as many events as genuine ones lie in the window, which it does unless it stops early or takes the run exit out of time order, the report ranks every genuine event of the file, cut by the principal cap or not; tampered lines only add to the malformed count |
| `AnomalyMeaning.WindowsMean` | src/querygate/admin/anomaly.py:242-283 | a principal's numbers count its events in (now - recent, now] and in the window right before, events without a principal under one name; its connections are those they name |
| `AnomalyMeaning.SignalsExact` | src/querygate/admin/anomaly.py:305-367 | the signals are exactly those that claim the truth, with enough traffic in both windows: a rate ratio and two shares that multiply back to the counts and pass their thresholds, and the alphabetically first new connections up to the cap |
| `AnomalyMeaning.RankMeans` | src/querygate/admin/anomaly.py:228-239 | a flagged principal is ranked by its strongest signal: the rate ratio, the rise of the rejected share, or two for a new connection |
| `AccessDuality.ReversalDuality` | src/querygate/admin/access_diff.py:146-722 | swapping the configurations yields the same multiset of changes read backwards, over all eight categories, exactly unless a hidden connection is on one side only |
| `AccessDuality.HiddenBreaksMirror` | src/querygate/admin/access_diff.py:648-688 | a hidden connection that comes or goes breaks the mirror |
| `AccessDuality.InAllChanges` | src/querygate/admin/access_diff.py:758-760 | every change is tagged with the connection it came from, and only that one |
| `AccessCompleteness.TableEntriesExact` | src/querygate/admin/access_diff.py:208-249 | the table entries are exactly the named tables whose accessibility changes, each with the right direction |
| `AccessCompleteness.TableDiffComplete` | src/querygate/admin/access_diff.py:90-249 | over every table name a change is listed or noted, except exactly when the explicit-allowlist flag flips over two empty lists; then its guardrail entry reports it in the same direction |
| `AccessCompleteness.ColumnEntriesExact` | src/querygate/admin/access_diff.py:252-279 | the column entries are exactly the compared columns whose accessibility changes, each with the right direction, up to equal dotted names |
| `AccessCompleteness.ColumnGapIff` | src/querygate/admin/access_diff.py:252-290 | some column of a table changes unlisted and unnoted exactly in two checkable cases |
| `AccessCompleteness.WildcardColumnUnreported` | src/querygate/admin/access_diff.py:252-290 | an input of the second case |
| `AccessCompleteness.DroppedListUnreported` | src/querygate/admin/access_diff.py:252-290 | an input of the first case: the whole diff is empty while columns open up |
| `AccessCompleteness.MaskDiffComplete` | src/querygate/admin/access_diff.py:388-487 | over every table and column a changed effective mask is listed with the right direction when its table is compared, and noted otherwise |
| `AccessCompleteness.MaskListedIff` | src/querygate/admin/access_diff.py:388-487 | with dot-free column names it is listed exactly when its table is compared |
| `AccessEnforcement.FilterGapIff` | src/querygate/compiler/sqlalchemy_compiler.py:936-962 | every filter of the list is enforced while the diff looks at the last one per table and column: over every table and column the enforced rules change with nothing listed exactly when the last rules agree and the hidden ones differ, and an entry without a change needs hidden rules on both sides |
| `AccessEnforcement.OnePerColumnExact` | src/querygate/admin/access_diff.py:304-362 | with at most one filter per table and column a change is listed exactly when the enforced rules change |
| `AccessEnforcement.FirstAndLastFilter` | src/querygate/admin/access_diff.py:304-362 | a column that loses its last filter is listed as loosening, one that gets its first as tightening |
| `AccessEnforcement.ShadowedFilterUnreported` | src/querygate/admin/access_diff.py:304-307 | of two filters on one column the earlier one is dropped: it is no longer enforced, and the whole diff of the connection is empty |
| `AccessCompleteness.CapReported` | src/querygate/admin/access_diff.py:60-174 | a numeric cap that moves is reported, loosening when raised except for the inverted caps |
| `AccessCompleteness.UncappedReported` | src/querygate/admin/access_diff.py:60-174 | dropping a cap is loosening, setting one tightening |
| `AccessCompleteness.GuardReported` | src/querygate/admin/access_diff.py:146-174 | any guardrail field that differs is listed with what it was and becomes, in the direction of its permissiveness |
| `AccessCompleteness.SpecialGuards` | src/querygate/admin/access_diff.py:60-66 | logging literals and only observing costs are the permissive settings |
| `AccessCompleteness.LabelsReported` | src/querygate/admin/access_diff.py:176-205 | a change of the approval labels is listed, more of them as tightening |
| `AccessEnforcement.PurposeCovered` | src/querygate/validation/policy_validation.py:915-940 | over every purpose, listed or not: when it becomes or stops being acceptable, its own entry or that of the gate says so in that direction |
| `AccessEnforcement.PurposeEntryTrueIff` | src/querygate/admin/access_diff.py:511-556 | the entry of a purpose tells the truth exactly when the gate is not switched; otherwise the purpose was and stays accepted |
| `AccessEnforcement.GateMisread` | src/querygate/admin/access_diff.py:535-550 | switching the gate on for one purpose lists that purpose as loosening |
| `AccessEnforcement.GroupGapIff` | src/querygate/validation/schema_validation.py:943-957 | the group that decides about cross-connection joins changes unreported exactly when the group of the profile stays and the policy moves it |
| `AccessEnforcement.PolicyGroupUnreported` | src/querygate/admin/access_diff.py:617-639 | a policy that adopts another connection's group opens joins to it with an empty diff |
| `AccessEnforcement.WritesUnreported` | src/querygate/admin/access_diff.py:641-722 | a change of the write policy alone gives an empty diff |
| `AccessEnforcement.UnreadUnreported` | src/querygate/admin/access_diff.py:641-722 | so do all policies that differ only in hidden row filters, the join group of the policy and writes |
| `AccessCompleteness.DeltaDiffComplete` | src/querygate/admin/access_diff.py:558-614 | a purpose's narrowing that goes is loosening, one that comes tightening, one that changes neutral; all are listed |
| `AccessCollector.Diff.DiffGuardrails` | src/querygate/admin/access_diff.py:146-205 | appends exactly the guardrail changes |
| `AccessCollector.Diff.DiffTables` | src/querygate/admin/access_diff.py:208-249 | appends exactly the table changes, notes a toggle once, returns the tables allowed on both sides |
| `AccessCollector.Diff.DiffColumns` | src/querygate/admin/access_diff.py:252-290 | appends exactly the column changes and notes a wildcard toggle |
| `AccessCollector.Diff.DiffFilters` | src/querygate/admin/access_diff.py:304-362 | appends exactly the row-filter changes |
| `AccessCollector.Diff.DiffMasks` | src/querygate/admin/access_diff.py:388-487 | appends exactly the mask changes and notes a wildcard mask |
| `AccessCollector.Diff.DiffPurposes` | src/querygate/admin/access_diff.py:490-614 | appends exactly the purpose changes |
| `AccessCollector.Diff.DiffConnection` | src/querygate/admin/access_diff.py:641-722 | appends exactly one connection's changes and notes |
| `AccessCollector.ComputeAccessDiff` | src/querygate/admin/access_diff.py:738-789 | the loops, sort, cut and summary compute the specified report |
| `PolicyMeaning.ResolveIff` | src/querygate/policy/loader.py:103-115 | the policy handed out is the one in force, told as a relation: the connection's entry or else the default, with the caller's patch for the connection, or else the one for all connections, taken field by field |
| `PolicyMeaning.EntryDecides` | src/querygate/policy/loader.py:103-109 | with an entry for the connection the default does not matter, whoever asks; without entry and patch the default is what counts |
| `PolicyMeaning.PatchDecides` | src/querygate/policy/loader.py:110-115 | a patch for the connection wins over the one for all connections, which counts where there is none |
| `PolicyMeaning.MaySeeIff` | src/querygate/policy/models.py:798-813 | a column is visible exactly if it is not denied for its table or for all, and is on its table's list, or without one on the list for all, or without either unless lists are required |
| `PolicyMeaning.MaskedIff` | src/querygate/policy/models.py:815-830 | the mask of a column is the first one its table lists for it, else the first one listed for all tables |
| `AccessExact.ReportExact` | src/querygate/admin/access_diff.py:738-789 | every entry of a report is true of the policies in force, and every true entry is in it unless it was cut and is full: an exact account, in all eight categories, of what is listed with which subject, direction and words, and of the filter values that are never shown |
| `AccessExact.ReportNotes` | src/querygate/admin/access_diff.py:747-777 | a report carries exactly the warnings that hold of the policies in force, and says when it was cut |
| `AccessExact.MovedTableReported` | src/querygate/admin/access_diff.py:208-249 | a table of any name whose accessibility moves under the policies in force is listed, or the flipped allow-list flag is in the same direction, or there is a warning |
| `AccessLayers.ReportOrdered` | src/querygate/admin/access_diff.py:725-777 | the report is ordered by direction, connection, category and subject, and what the cut leaves out comes last in that order |
| `AccessLayers.OnlyInForceCounts` | src/querygate/policy/loader.py:103-115 | two active configurations under which the same policies are in force give the same report |
| `AccessLayers.UnusedDefault` | src/querygate/policy/loader.py:103-109 | so a default that no connection falls back on does not matter to any caller |
| `AccessCollector.Summarize` | src/querygate/admin/access_diff.py:779-781 | the summary counts the kept list by direction |
| `AccessReport.CountsAddUp` | src/querygate/admin/access_diff.py:779-781 | the three counts add up to the total |
| `AccessReport.KeptAndDropped` | src/querygate/admin/access_diff.py:762-777 | kept and dropped changes together are all changes; nothing dropped sorts before anything kept |
| `AccessReport.LooseningDroppedLast` | src/querygate/admin/access_diff.py:762-777 | a loosening change is dropped only when every kept one is loosening |
| `AccessReport.CutInOrder` | src/querygate/admin/access_diff.py:762-777 | within one direction the cut goes by connection, then category, then subject |
| `AccessReport.LooseningCountSurvives` | src/querygate/admin/access_diff.py:762-781 | the summary's loosening count is the smaller of the cut and the number of loosening changes there are |
| `AccessReport.NotesExact` | src/querygate/admin/access_diff.py:747-760 | an incompleteness note is present exactly when it is due |
| `AccessCoverage.UntruncatedHoldsAll` | src/querygate/admin/access_diff.py:738-789 | an untruncated report holds exactly the changes there are |
| `AccessCoverage.ReportCoversTables` | src/querygate/admin/access_diff.py:738-789 | end to end, for every table name whose accessibility differs: the report lists it or the flipped flag, warns about unnamed tables, or says it was cut |
| `AccessCoverage.QuietConnections` | src/querygate/admin/access_diff.py:738-789 | no changes and no notes: no connection comes, goes or changes visibility |
| `AccessCoverage.QuietInside` | src/querygate/admin/access_diff.py:738-789 | no changes and no notes, over all names: every table, mask and last row filter is as before, and the enforced row filters of a column change exactly when hidden ones do |
| `AccessCoverage.QuietRest` | src/querygate/admin/access_diff.py:738-789 | no changes and no notes: guardrails, approval labels, purposes with their narrowings and the profile's join group are as before, and the group that decides about joins changes exactly when the policy moves it |
| `AccessCoverage.QuietColumnsIff` | src/querygate/admin/access_diff.py:738-789 | no changes and no notes: columns still change exactly in the two gaps |
| `Paging.CursorStopsIff` | src/querygate/admin/blast_radius.py:99-108 | following the cursor ends exactly when the page size is at least 1 or nothing is configured |
| `Paging.PagesConcatenate` | src/querygate/admin/blast_radius.py:99-108 | the pages so far are the list up to the cursor; at the end, the whole list |
| `Paging.EachOnOnePage` | src/querygate/admin/blast_radius.py:99-108 | each configured principal is evaluated by exactly one request |
| `BlastRadius.ComputeBlastRadius` | src/querygate/admin/blast_radius.py:84-153 | the loop over a page computes the specified report |
| `BlastRadius.InAllRisks` | src/querygate/admin/blast_radius.py:76-131 | the ranked list holds exactly the loosening changes that the cut diffs of the baseline and of the evaluated principals kept |
| `BlastRanking.CutKeepsRisksIff` | src/querygate/admin/access_diff.py:762-777 | the cut of one diff keeps all its loosening changes exactly when there are no more of them than it admits |
| `BlastRanking.RanksEverythingIff` | src/querygate/admin/blast_radius.py:113-131 | every loosening change of the baseline and of each principal on the page reaches the ranking exactly when no diff has more of them than its cut admits |
| `BlastRanking.HighestRiskFirst` | src/querygate/admin/blast_radius.py:133-140 | then every loosening change there is, is shown, or the list is full of changes that rank no lower and the count of omitted ones says so |
| `BlastRanking.BaselineBeforePrincipal` | src/querygate/admin/blast_radius.py:63-73 | then no change of one principal displaces a baseline change of its risk class |
| `BlastRanking.SevereFirst` | src/querygate/admin/blast_radius.py:45-73 | then no change displaces one of a more severe category |
| `BlastExact.HighestHold` | src/querygate/admin/blast_radius.py:45-140 | each risk shown is a loosening change that is true for its principal, or for the baseline, under the policies in force; the list is ordered by severity, baseline before principals, connection, principal and subject |
| `BlastExact.BaselineHolds` | src/querygate/admin/blast_radius.py:84-131 | the baseline lists true changes, 500 at most, and all there are if it lists fewer |
| `BlastGaps.LaterIsCut` | src/querygate/admin/access_diff.py:762-777 | for every cut: once the loosening changes of one connection fill it, no loosening change of a later connection is kept |
| `BlastGaps.SevereChangeLost` | src/querygate/admin/blast_radius.py:113-140 | otherwise it can, for every cut and every list of guardrail fields: opened tables on an earlier connection hide a dropped row filter that outranks everything shown, and it is not counted as omitted |
| `BlastGaps.CaseExists` | src/querygate/admin/blast_radius.py:113-140 | such a request exists, for every pair of connections and every cut |
| `BlastRadius.UnconfiguredFollowBaseline` | src/querygate/admin/blast_radius.py:1-14 | a principal no configuration overrides sees exactly the baseline changes |
| `BlastRadius.NobodySilent` | src/querygate/admin/blast_radius.py:84-153 | over all pages: a principal no configuration overrides sees the baseline changes, an overridden one whose report lists or notes anything is shown by exactly one request |
| `BlastMissed.NeverShownIff` | src/querygate/admin/blast_radius.py:117-131 | an overridden principal is shown by no request exactly when its report lists and notes nothing |
| `BlastMissed.MissedExactly` | src/querygate/admin/blast_radius.py:117-131 | for a principal no request shows, tables, masks, guardrails, labels and purposes stay; columns change exactly in the two gaps, enforced row filters exactly with hidden ones, joins exactly when the policy moves the group |
| `BlastMissed.MissedPrincipal` | src/querygate/admin/blast_radius.py:117-131 | a principal whose columns open up and whom no request shows |
| `BlastMissed.MissedExists` | src/querygate/admin/blast_radius.py:117-131 | such a request exists |
| `ConfigReload.ReachableCoherent` | src/querygate/config_reload.py:43-186 | under every interleaving each cached engine matches the registry, awaits disposal, or was abandoned by a failed disposal; session makers are bound to the cached engines |
| `ConfigReload.ReloadSettles` | src/querygate/config_reload.py:67-186 | when every disposal succeeds, all cached engines match whenever no reload is in progress |
| `ConfigReload.ReloadSettlesIff` | src/querygate/config_reload.py:67-186 | for every run, failing disposals included: all cached engines match at its end exactly when every stale engine that a failing disposal cut off was disposed of later, or a later reload gave its connection the profile it was built from |
| `ConfigReload.FailedLoadsLeaveNoTrace` | src/querygate/config_reload.py:67-170 | taking every failed reload out of any run gives a run that ends in the same stores and engines |
| `ConfigReload.TimeoutReloadIff` | src/querygate/config_reload.py:83-91 | a completed reload leaves every engine as it would be built now exactly when no connection that keeps its engine changes its query timeout, which an engine is built with |
| `ConfigReload.TimeoutLeftBehind` | src/querygate/connections/engine.py:124-136 | a reload that changes only a timeout keeps the engine built with the old one |
| `ConfigReload.SkippedEngineSurvives` | src/querygate/config_reload.py:172-186 | an engine whose disposal was skipped survives every later reload that keeps its profile |
| `ConfigReload.FailedDisposalLeavesStale` | src/querygate/config_reload.py:172-186 | a failed disposal leaves another stale engine cached with no reload in progress |
| `ConfigReload.Process.LoadAndSwap` | src/querygate/config_reload.py:67-165 | every store is swapped, or none, as the reload step of the state machine says; a missing catalog or template path empties that store, a missing identity or user path leaves it, and the discovery cache goes with the identity |
| `ConfigReload.Process.GetEngine` | src/querygate/connections/engine.py:100-142 | an engine is built from the registry and timeout of the moment unless cached; an empty connection string or a dialect without a driver caches nothing |
| `ConfigReload.Process.DisposeEngine` | src/querygate/connections/engine.py:216-231 | everything cached is popped before the disposal is awaited: one step of the state machine, so requests may come in between |
| `ConfigReload.StaleIds` | src/querygate/config_reload.py:172-183 | the diff finds exactly the removed connections and those whose string or dialect changed |
| `ConfigReload.Process.DisposeStale` | src/querygate/config_reload.py:172-186 | pops stale engines in any order up to the first one whose disposal raises, all of them if none does |
| `LeaseMonitor.RefreshesAlternate` | src/querygate/config_reload.py:322-387 | two successive successful refreshes never act on one expiry |
| `LeaseMonitor.RefreshesCollapse` | src/querygate/config_reload.py:322-387 | the refreshes of a run are its due expiries whose reload goes through, with consecutive repeats collapsed |
| `LeaseMonitor.NeverTwiceIff` | src/querygate/config_reload.py:322-387 | no expiry is acted on twice exactly when equal live expiries are reported without another in between |
| `LeaseMonitor.RefreshesAdvance` | src/querygate/config_reload.py:322-387 | in particular, if expiries never move back, refreshes act on strictly later ones |
| `LeaseMonitor.ForgottenExpiryRepeats` | src/querygate/config_reload.py:322-387 | otherwise an earlier expiry is acted on again |
| `LeaseMonitor.Monitor.Run` | src/querygate/config_reload.py:348-387 | the polling loop acts on the specified expiries and remembers the last one |
| `FirstBoot.WriteOnce` | src/querygate/bootstrap.py:113-185 | under any interleaving of crashing workers pre-existing files never change, no two workers claim one file, and a reported key is the stored one |
| `FirstBoot.FilesOnlyGrow` | src/querygate/bootstrap.py:113-137 | over any run a file only moves from absent to empty to its creator's text, and its creator never changes |
| `FirstBoot.SeedingOutcome` | src/querygate/bootstrap.py:144-185 | in every run whose workers are all through or dead, a missing file is left empty exactly when a worker died writing it, stays absent exactly when every worker died before it, and is filled and claimed exactly when somebody got beyond it and nobody died writing it |
| `FirstBoot.SeedingComplete` | src/querygate/bootstrap.py:144-185 | so if somebody gets through and nobody dies writing, the claims cover exactly the missing files and none is left empty |
| `FirstBoot.CrashLeavesEmpty` | src/querygate/bootstrap.py:113-137 | a file whose creator died writing it stays empty through every continuation |
| `FirstBoot.KeyLost` | src/querygate/bootstrap.py:144-185 | a run that gets there: the admin key file is lost for good |
| `FirstBoot.Disk.TryWriteOnce` | src/querygate/bootstrap.py:113-137 | creates exactly when absent, and changes nothing else |
| `FirstBoot.Disk.Boot` | src/querygate/bootstrap.py:144-185 | one worker alone seeds exactly the missing files; a second run does nothing |
| `SchemaPrune.ReachableIsLeast` | scripts/run_dast.py:182-220 | the reachable components are inside every closed set |
| `SchemaPrune.Closure` | scripts/run_dast.py:204-214 | the worklist ends on cyclic graphs with exactly the reachable components, a closed set |
| `SchemaPrune.RefsIff` | scripts/run_dast.py:96-129 | a name is collected from a document exactly when at some position, a path of field and list indices, an object has a `$ref` to that schema |
| `SchemaPrune.Prune` | scripts/run_dast.py:182-220 | exactly the excluded paths go; a component is kept, unchanged, exactly when a chain of references leads to it from a kept path; no position of anything kept refers to a removed component |
| `PoolBudget.SizingWithinBudget` | src/querygate/load_benchmark.py:468-527 | sizes are at least 1, and all workers fit the remaining budget exactly when two connections per worker would |
| `PoolBudget.SizingExact` | src/querygate/load_benchmark.py:468-527 | the generous size where it fits all workers, else the largest equal share that does, one of it as overflow, else two connections each |
| `PoolBudget.BenchmarkWithinBudget` | src/querygate/load_benchmark.py:578-617 | for 1 to 16 workers and every peak, baseline, admin reserve and worker pools fit the budget together |
| `PoolBudget.TooManyWorkers` | src/querygate/load_benchmark.py:503-527 | next to a full-size baseline the budget holds exactly up to 20 workers |
| `Rollup.AddSampleReads` | src/querygate/admin/observability.py:179-234 | one sample moves the numbers it feeds, by its value, and no other |
| `Rollup.MergeReads` | src/querygate/admin/observability.py:313-315 | merging adds up every number, map entries and their sums included |
| `Rollup.DirectPermutes` | src/querygate/admin/observability.py:168-234 | every number is independent of sample order |
| `Rollup.Accumulate` | src/querygate/admin/observability.py:168-234 | per-connection numbers are the direct sums over that connection's samples and add up to the sums over all; connections and map keys appear exactly when a sample names them |
| `Rollup.RollUp` | src/querygate/admin/observability.py:168-306 | each global number is the sum over all matching samples, however they are split across connections, and each global map key appears exactly when some sample names it |
| `Overview.TruncIff` | src/querygate/admin/observability.py:190-234 | a counter value becomes the one integer less than one away from it, on its side of zero and no further out; a whole number is kept |
| `Overview.BuildOverview` | src/querygate/admin/observability.py:168-306 | for all connections and for each: gauges and seconds are plain sums over the samples of one metric; where counter samples carry whole numbers every counter, by status, reason, kind or outcome, is the plain sum of their values; keys are those some sample carries, a missing label counting as unknown; averages and rates are ratios of these sums, absent where the divisor is zero |

## Left out

- sha256, the key-sorted JSON dump and Fernet: the digest is a function parameter, and sealing is symbolic with an exact inverse. `CanonicalIffAlpha` speaks of trees, not of hash values.
- Pydantic validation, JSON, YAML and UTF-8 decoding, audit-envelope signatures: a parse function or an already parsed value.
- Clocks, uuids, random keys, tokens and encryption keys: parameters, with freshness and monotonicity stated where they are needed.
- Returned entries and cached engines are values: a caller that mutates what `record` returned is not modelled.
- Directory order: listings are compared as sets, and ties under a sort key keep any order.
- Directory removal is one step; a removal interrupted halfway is not modelled.
- Case folding in the access diff: identifiers are taken as already folded, and the display spelling and the detail and note prose are dropped.
- The derived list of guardrail fields is a parameter; theorems that need the explicit-allowlist flag in it say so.
- Negative `max_changes`, `max_principals` and `max_highest_risk`, which Python slices from the end: natural numbers here.
- The metadata cache and the semaphore reset of an engine disposal, and the admin reload lock: one reload at a time is a rule of the state machine.
- The path patterns of the schema scan: a predicate parameter.
- The full names of metric samples: one case of a datatype each; a sample of any other name counts for nothing.
- The window statistics of the config and catalog trend report: counts per action and outcome in two windows, their rates and the volume ratio. Its scan is modelled.
- Floating-point rounding: integers and reals.
- Redis backends, command lines, HTTP routes, the browser UI, the query compiler and the TypeScript client.
- ConfigReload.Process.DisposeStale: the loop runs without interruption here; interleavings are modelled by its single steps and the state machine.
- The contents of the write policy, and what a purpose's narrowing does to a query: opaque values that are only compared.
- Row filters inherited from other connections of one query, and filters on common table expressions.
- DraftIsolation.NonInterference: does not cover a manifest from outside the store that has every required key and an unreadable date, which makes every save and listing raise.
