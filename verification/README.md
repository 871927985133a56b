# Verified models of the platform's state machines, parsers and caches

This project models the parts of the trading platform whose correctness is not visible from
any single function: a tolerant HTML tree builder, the inbound API rate limiter, the
single-flight storage summary, the launcher's process supervisor, process-tree killer and log
view, the data-source and discovery-profile services with their in-memory loaders, the
migration wrappers, and three text transformations. `dafny verify dfyconfig.toml` checks
everything.

Each module follows one component. Code that updates fields in place is a class whose methods
are proved against a pure step function or a stated new state. Protocols among threads or
coroutines are state machines, with lemmas over every run. Purely computed values are functions
with lemmas.

| module | component | main results |
|---|---|---|
| `HtmlTree` | `extract_md.py` | document order is arrival order for every token stream; print/parse round trip at any cursor; the mutable tree refines the open path |
| `RateLimiter` | `backend/main.py`, `backend/utils/rate_limiter.py` | eviction is invisible, and admissions are bounded, if and only if rate * stale_after >= burst; a denied client's retry is admitted |
| `SingleFlight` | `backend/api/routes_dataset.py` | one scan at a time, scans at least a TTL apart, every answer fresh or scanned by its caller, and a failure served exactly until its TTL, over all interleavings |
| `ParquetScan` | `backend/api/routes_dataset.py` | the stack walk equals the recursive fold; one report per provider name, first root wins, largest first |
| `ProcessTree` | `gui.py` | a safe kill order listing every descendant once; the listing ends if and only if the root is not its own descendant; the lineage walk ends on every table |
| `LogView` | `gui.py` | the incremental view stays a suffix of the filtered history over every run, and equals a rebuild throughout a run if and only if each flush meets a stated condition |
| `Supervisor` | `gui.py` | one pass at a time and one live process per plane over every run; an undisturbed pass settles |
| `DataSources` | `backend/api/routes_data_sources.py`, `backend/services/data_source_loader.py` | rows and loader stay consistent through every call; a refresh repairs any loader state |
| `ProfileVersions` | `backend/api/routes_discovery_profiles.py`, `backend/services/discovery_profile_loader.py` | gapless version log over every run; an update commits if and only if it changes code; restore undoes any run |
| `Migrations` | `backend/alembic_helpers.py` | any number of interruptions, then a full run, ends as one uninterrupted run |
| `Slug`, `PythonLiteral`, `KvBlob` (with `PythonText`, `Options`) | `backend/api/routes_ai.py`, `tools/crypto_latency_harness.py` | slugs always validate, are fixed points and spell the words of the text; literals read back exactly; key/value texts round trip |

## Findings

Where the code does not do what one would expect of it, the model keeps the code's behaviour
and states exactly when the expectation holds.

- A profile update that does not change the source code can never be committed: it reuses the
  current version number, which the unique constraint on (profile, version) forbids
  (`ProfileVersions.EditCommitsIff`). The loader has already been changed by then. The worst
  case: a request that only enables a disabled profile fails, the row stays disabled, and the
  loader runs it (`ProfileVersions.EnablingAloneRunsDisabled`). The opposite happens to new code
  stored together with a kind other than Python: the row stays "loaded" while the old code runs
  (`ProfileVersions.KindChangeKeepsOldCode`).
  `ProfileVersions.RefusedUpdateDiverges` says exactly after which requests table and loader
  agree.
- The `Retry-After` header alone can be too short: `int(wait + 0.999)` rounds a wait of just
  over a whole number of seconds down. A client that retries exactly on time is admitted if and
  only if it was forgotten meanwhile or its wait is one the header covers
  (`RateLimiter.RetryOnTimeIff`, a concrete run in `RateLimiter.RetryAfterAloneFails`); one
  extra millisecond always suffices.
- A limiter setting with rate * stale_after < burst gives a client that drains its bucket and
  stays away two full bursts (`RateLimiter.AdmissionBoundIff`). The shipped settings are safe.
- A failed storage scan is cached like a good one: whatever callers do meanwhile, a check is
  answered with the empty summary if and only if ten minutes have not passed
  (`SingleFlight.ScanIsCached`, `SingleFlight.FailureServedIff`).
- The process-tree listing keeps no visited set and never ends when the root is its own
  descendant (`ProcessTree.ListingEndsIff`): two processes each listed as the other's parent, as
  a reused pid can make them, suffice (`ProcessTree.MutualParentsNeverEnd`).
- The log buffer is a deque of 2000 entries, so a flush carries at most the last 2000 arrivals.
  Everything sent since the last clear reaches the view if and only if no more than 2000 entries
  arrive between two flushes (`LogView.NothingLostIff`); a longer burst silently loses its oldest
  entries (`LogView.BurstLosesOldest`).
- The display is not always what a rebuild with the same filter would show. Two families of
  flushes break it. The text widget counts one line more than it shows, so a display that
  reaches 5000 lines is cut to 4000, which is right only if the entries are cut to 4000 as well
  and all of them match (`LogView.FlushAndRebuildDiffer`: 5000 matching entries in three
  flushes). And entries are cut without touching the display, so a line can outlive its entry
  (`LogView.FlushKeepsDroppedLine`: one matching entry, then 5999 others, in three flushes).
  `LogView.FlushAgreesIff` gives the condition on entries and buffer, and `LogView.RunAgreesIff`
  lifts it to whole runs.
- A data source whose load fails keeps running what it ran before, under status "error", if and
  only if its slug stays the same and something ran there (`DataSources.Service.Update`,
  `DataSources.Service.Reload`; a concrete case in `DataSources.StaleRuntime`).
- The closing checks of the slug normaliser never fire for a well-formed prefix
  (`Slug.Truncated`, `Slug.FinishKeeps`).

## Model

| member | source | states |
|---|---|---|
| `HtmlTree.DocumentOrderIsArrivalOrder` | extract_md.py:50-76 | for every token stream, stray and mis-nested end tags included, the preorder of the document is exactly the start-tag and data tokens in arrival order |
| `HtmlTree.StepPreorder` | extract_md.py:56-76 | one token adds its own event at the end of the preorder and moves nothing else |
| `HtmlTree.SealToPreorder` | extract_md.py:68-73 | closing any number of open nodes leaves the preorder unchanged |
| `HtmlTree.OpensIff` | extract_md.py:15-66 | a start tag opens a node unless it is one of the seven void tags, which only add one, as every self-closing tag does |
| `HtmlTree.EndTagEffect` | extract_md.py:68-73 | an end tag is ignored if and only if no open node below the root has its tag; otherwise the cursor becomes the parent of the innermost match and every frame further out is untouched |
| `HtmlTree.RoundTrip` | extract_md.py:56-76 | feeding the printed tokens of any well-formed forest at any cursor appends exactly that forest there and leaves the cursor in place, whatever tags are open |
| `HtmlTree.ParsePrintParse` | extract_md.py:15-76 | every parsed document is well formed, and printing and parsing it again gives the same document |
| `HtmlTree.Descendants` | extract_md.py:31-35 | the traversal of the heap tree yields the elements of the node's value in document order, each node once and all of them below the node |
| `HtmlTree.Node.constructor` | extract_md.py:21-25 | a new node has its tag and attributes, no children and no parent |
| `HtmlTree.Tree.constructor` | extract_md.py:51-54 | a new tree is the bare root with the cursor on it |
| `HtmlTree.Tree.HandleStart` | extract_md.py:56-61 | the heap takes the start-tag step; the new node is the last child of the old cursor and the cursor is an ancestor-or-self of it; a void tag leaves the cursor |
| `HtmlTree.Tree.HandleStartEnd` | extract_md.py:63-66 | the heap takes the self-closing step and the cursor stays |
| `HtmlTree.Tree.WalkUp` | extract_md.py:69-71 | the parent-walking loop stops at the innermost open node with the tag, or at the root |
| `HtmlTree.Tree.HandleEnd` | extract_md.py:68-73 | the heap takes the end-tag step; the cursor stays on the path from the root to the newest node |
| `HtmlTree.Tree.HandleData` | extract_md.py:75-76 | the heap takes the data step |
| `HtmlTree.Parse` | extract_md.py:50-76 | for every token stream: a tree that can take more tokens, whose open path is that of the pure model, whose nodes show exactly the document, whose children lists and parent links agree at every node, open or closed, and whose traversal lists each element once, in the order the start tags arrived |
| `RateLimiter.EvictingStepConsistent` | backend/main.py:138-178 | every call keeps the three maps on one key set, tokens within 0 and burst, and its own caller un-evicted |
| `RateLimiter.RunConsistent` | backend/main.py:125-178 | in every run from a new limiter the three maps share one key set and tokens stay within 0 and burst |
| `RateLimiter.AnswerMeans` | backend/utils/rate_limiter.py:29-50 | a call is admitted if and only if its client has a whole token, which it then costs; a denied one is told the time until it has one |
| `RateLimiter.ForgottenIff` | backend/main.py:154-163 | a call drops exactly the other clients not seen for stale_after, and only if the last sweep is a minute or more ago |
| `RateLimiter.PolicyMeans` | backend/main.py:143-157 | what the three settings mean for burst, rate and stale_after, values below the minimum included |
| `RateLimiter.ForeverIsolates` | backend/main.py:165-178 | from any state, a client's answers are those it would get alone; requests without a client count as the client "unknown" |
| `RateLimiter.ClientsAreIsolated` | backend/main.py:138-178 | in every run of the evicting limiter each client gets the answers, waits and remaining tokens it would get if it were alone |
| `RateLimiter.StepSimulates` | backend/main.py:154-178 | one call of the evicting limiter and of the never-forgetting one answer alike and stay related |
| `RateLimiter.EvictionInvisible` | backend/main.py:154-178 | under rate * stale_after >= burst every ordered run gets the same answers, waits and remaining tokens as without eviction |
| `RateLimiter.EvictionShows` | backend/main.py:154-163 | when the condition fails, a concrete run gets different answers |
| `RateLimiter.EvictionInvisibleIff` | backend/main.py:138-178 | for all settings, eviction is invisible on every run if and only if rate * stale_after >= burst |
| `RateLimiter.ShippedSettingsRefill` | backend/config.py:340-342 | the default settings come to a burst of 300, 4 tokens a second and 1200 seconds, and satisfy the condition |
| `RateLimiter.AdmittedArePaidFor` | backend/utils/rate_limiter.py:29-42 | from any state, the calls admitted for a key are covered by its tokens at the start plus what dripped in |
| `RateLimiter.AdmissionBound` | backend/main.py:138-178 | in every run, the calls admitted for one key among consecutive requests are at most burst plus rate times the time they span |
| `RateLimiter.AdmissionBoundIff` | backend/main.py:138-178 | for all settings, that bound holds on every run, key and interval if and only if rate * stale_after >= burst |
| `RateLimiter.WaitIsExact` | backend/utils/rate_limiter.py:44-50 | a denied bucket left alone admits a call if and only if the reported wait has passed |
| `RateLimiter.RetryIsAdmitted` | backend/main.py:1152-1154 | a denied client that makes no call for retry_after plus one millisecond is admitted, for all settings and whatever other clients do |
| `RateLimiter.RetryAfterCovers` | backend/main.py:1154 | the rounded wait is never a millisecond or more short, and covers exactly the waits of at most one second, of whole seconds, or at least a millisecond past one |
| `RateLimiter.RetryOnTimeIff` | backend/main.py:1152-1154 | a denied client retrying at exactly the time it was told is admitted if and only if it has been forgotten or the header covers its wait, for all settings and whatever other clients do |
| `RateLimiter.RetryInEveryRun` | backend/main.py:1152-1154 | both retry results after any run from a new limiter |
| `RateLimiter.RetryAfterAloneFails` | backend/main.py:1154 | a concrete client that waits exactly retry_after is denied again |
| `RateLimiter.RefillTwice` | backend/utils/rate_limiter.py:29-34 | refilling again at the same instant changes nothing |
| `RateLimiter.InboundApiRateLimiter.constructor` | backend/main.py:125-129 | a new limiter knows no client |
| `RateLimiter.InboundApiRateLimiter.LockFor` | backend/main.py:131-136 | the key has a lock afterwards and no other key's lock changes |
| `RateLimiter.InboundApiRateLimiter.BucketFor` | backend/main.py:138-152 | an existing bucket is returned as it is, a missing one is created full |
| `RateLimiter.InboundApiRateLimiter.CleanUp` | backend/main.py:154-163 | at most once a minute, exactly the clients idle for stale_after leave all three maps |
| `RateLimiter.InboundApiRateLimiter.Consume` | backend/main.py:165-178 | one call takes the limiter through the evicting step the run theorems speak about |
| `SingleFlight.StepSafe` | backend/api/routes_dataset.py:1411-1431 | every atomic step of any caller keeps one scan in flight, spacing and justified answers |
| `SingleFlight.EveryRunIsSafe` | backend/api/routes_dataset.py:1411-1431 | so does every interleaving of any number of callers |
| `SingleFlight.ChecksMean` | backend/api/routes_dataset.py:1414-1425 | a check that finds a publication younger than ten minutes returns it; otherwise the first check waits, and the one under a free lock starts a scan |
| `SingleFlight.CanReturn` | backend/api/routes_dataset.py:1411-1431 | from every safe state every caller can still return: no interleaving blocks one for good |
| `SingleFlight.LogIsResults` | backend/api/routes_dataset.py:1424-1430 | the publications of every run are exactly the results of its scans in order, the empty summary for a failed one |
| `SingleFlight.OwnScanAnswer` | backend/api/routes_dataset.py:1424-1431 | when a scan ends its result is cached, and it is what its own caller has returned from then on |
| `SingleFlight.StartsSpaced` | backend/api/routes_dataset.py:1414-1430 | between the i-th and j-th scan starts lie at least j - i TTLs |
| `SingleFlight.FreshIsNewest` | backend/api/routes_dataset.py:1414-1423 | a cached answer is the newest publication at the time of its check |
| `SingleFlight.SingleFlightGuarantee` | backend/api/routes_dataset.py:1411-1431 | in every reachable state: at most one scanning caller, each scan starts at least ten minutes after the last publication, the publications are the scans' results in order, and each answer is fresher than that at its check or the caller's own scan |
| `SingleFlight.ScanIsCached` | backend/api/routes_dataset.py:1425-1431 | over every run after a scan, failed or not: until TTL has passed, every caller that was waiting or came since and has its answer got that scan's result; no check made after TTL ever gets it |
| `SingleFlight.ScanServedIff` | backend/api/routes_dataset.py:1414-1431 | whatever has happened since a scan ended, the next check of a new or waiting caller is answered with its result if and only if TTL has not passed |
| `SingleFlight.FailureServedIff` | backend/api/routes_dataset.py:1414-1431 | for a failed scan: the next check is answered with the empty summary if and only if ten minutes have not passed |
| `ParquetScan.TallyAppend` | backend/api/routes_dataset.py:1386-1400 | the recursive fold distributes over concatenation, so bytes, files and directories do not depend on visiting order |
| `ParquetScan.TallyMeans` | backend/api/routes_dataset.py:1386-1396 | the fold counts exactly the files at any depth whose name ends in .parquet, and sums their sizes |
| `ParquetScan.EndsWithIff` | backend/api/routes_dataset.py:1394 | a name counts as parquet if and only if its last eight characters are the suffix |
| `ParquetScan.Walk` | backend/api/routes_dataset.py:1383-1400 | the explicit-stack walk ends on every tree and its byte and file counts equal the recursive fold |
| `ParquetScan.List` | backend/api/routes_dataset.py:1389-1398 | one directory listing moves its files into the counts and its subdirectories onto the stack, conserving the totals |
| `ParquetScan.ScanRoot` | backend/api/routes_dataset.py:1379-1406 | one root adds reports only for names not seen before and keeps total and seen set exact |
| `ParquetScan.ScanProviders` | backend/api/routes_dataset.py:1373-1408 | exactly one report per directory name, from the first root that has it, with the fold's counts; the total is the sum over those reports; descending by size |
| `ParquetScan.VisitedMeans` | backend/api/routes_dataset.py:1376-1379 | roots are visited in order, a missing one gives nothing |
| `ParquetScan.SortPermutes` | backend/api/routes_dataset.py:1407 | sorting permutes the reports |
| `ParquetScan.SortSorts` | backend/api/routes_dataset.py:1407 | the result is descending |
| `ParquetScan.SortIsStable` | backend/api/routes_dataset.py:1407 | providers of equal size keep the order they were found in |
| `ProcessTree.GroupByParent` | gui.py:181-188 | the grouping loop yields each pid's children in table order |
| `ProcessTree.ListTree` | gui.py:191-196 | off a cycle, the breadth-first loop ends and lists root and descendants without repetition, each after its parent |
| `ProcessTree.KillOrder` | gui.py:191-198 | for every snapshot with unique pids whose root is not its own descendant, the order contains exactly the root and its descendants, once each, every process before its parent |
| `ProcessTree.FrontierStep` | gui.py:193-196 | one iteration keeps listed plus queued pids distinct, all descendants, and each after its parent |
| `ProcessTree.ListedAll` | gui.py:191-196 | when the queue is empty every descendant is listed |
| `ProcessTree.ListingEndsIff` | gui.py:191-196 | the loop empties its queue after finitely many iterations if and only if the root is not its own descendant |
| `ProcessTree.SelfParentNeverEnds` | gui.py:191-196 | a process listed as its own parent is queued again in every iteration |
| `ProcessTree.MutualParentsNeverEnd` | gui.py:191-196 | two processes each listed as the other's parent are queued in turn forever |
| `ProcessTree.CurrentLineage` | gui.py:488-503 | the ancestor walk ends on every table, parent cycles included, and collects exactly the process and those reached by following the last readable row of each pid to a non-zero parent |
| `ProcessTree.ParentByPidMeans` | gui.py:490-498 | the parent recorded for a pid is that of its last readable row, and only positive pids have one |
| `LogView.FlushFaithful` | gui.py:1012-1057 | a flush keeps entries and display suffixes of history and filtered history within their bounds |
| `LogView.EveryLogIsFaithful` | gui.py:1007-1148 | after any sequence of enqueues into the bounded buffer, flushes, filter changes and clears: entries are a suffix of the history since the last clear, at most 5000; the display is a suffix of the filtered history |
| `LogView.RebuildAgrees` | gui.py:1059-1076 | in every reachable state, display and rebuild are suffixes of one filtered history and their last 4000 lines are the same |
| `LogView.FlushAgreesIff` | gui.py:1012-1057 | a flush keeps the display equal to a rebuild if and only if: when the display is cut, exactly 4000 entries are left and all match; otherwise, no entry thrown away matches |
| `LogView.RunAgreesIff` | gui.py:1007-1148 | a run keeps display and rebuild equal throughout if and only if each of its flushes meets that condition |
| `LogView.FlushAndRebuildDiffer` | gui.py:1048-1050 | a run from the empty log: 5000 matching entries in bursts of 2000, 2000 and 1000 leave 4000 lines on display and 5000 after a rebuild |
| `LogView.FlushKeepsDroppedLine` | gui.py:1019-1040 | a run from the empty log: one matching entry and 5999 others in three bursts of 2000 leave its line on display, and a rebuild shows nothing |
| `LogView.BufferIsRecent` | gui.py:1007-1017 | in every run the buffer holds exactly the last 2000 arrivals since the last flush |
| `LogView.NothingLostIff` | gui.py:1007-1022 | in every run, all that arrived before a flush and since the last clear has reached the view, in order, if and only if no flush found more than 2000 arrivals |
| `LogView.BurstLosesOldest` | gui.py:674 | of a longer burst exactly the last 2000 entries reach the view |
| `LogView.ContainsIff` | gui.py:1106-1108 | the search passes if and only if the word stands at some index of the folded text |
| `LogView.LevelMeans` | gui.py:1095-1099 | DEBUG shows all, INFO all but debug entries, WARNING warnings and errors, ERROR errors; entries of other levels pass as INFO |
| `LogView.FiltersMean` | gui.py:1091-1109 | a source filter shows exactly its source, the worker filters exactly the entries without a worker or of that worker, the search exactly the entries with the word |
| `LogView.LineMeans` | gui.py:1044-1046 | a line is the entry's text in the colour of its level, or of INFO |
| `LogView.NarrowingRemoves` | gui.py:1059-1076 | narrowing the filter only removes lines and moves none |
| `LogView.LogPanel.EnqueueLog` | gui.py:1007-1010 | the entry joins the buffer; a full buffer of 2000 drops its oldest entry; nothing else changes |
| `LogView.LogPanel.Matching` | gui.py:1024-1028 | the lines of the entries that pass source, level, worker and search filters, in order |
| `LogView.LogPanel.AppendEntries` | gui.py:1019-1022 | past 5000 entries only the newest 4000 are kept |
| `LogView.LogPanel.AppendLines` | gui.py:1042-1055 | the display is appended to and trimmed by line index; the counter equals its length |
| `LogView.LogPanel.FlushLogBuffer` | gui.py:1012-1057 | the panel takes the flush step and the counter equals the display |
| `LogView.LogPanel.RebuildLogView` | gui.py:1059-1076 | the display becomes the filtered entries |
| `LogView.LogPanel.ChangeFilter` | gui.py:1111-1137 | every filter setter stores the filter and rebuilds |
| `LogView.LogPanel.ClearLogs` | gui.py:1139-1148 | entries, display and counter are emptied; what is still buffered is not |
| `Supervisor.GatedPlanes` | gui.py:1863-1873 | which planes run, by the flags map: five always, detection unless the scanner is off, news if news or weather is on, discovery if it is on, no other plane |
| `Supervisor.CarrySafe` | gui.py:1875-1898 | stopping a plane, or spawning one with no live process, leaves every live process on record for its plane |
| `Supervisor.StepSafe` | gui.py:1900-1940 | every event of any thread keeps one pass in flight and live processes on record |
| `Supervisor.SupervisorGuarantee` | gui.py:1900-1940 | in every run with polling threads, dying processes, toggled flags and raised errors: at most one pass, at most one live supervised process per plane |
| `Supervisor.VisitOne` | gui.py:1903-1927 | one iteration settles its plane and leaves the earlier ones settled |
| `Supervisor.UndisturbedPassSettles` | gui.py:1900-1940 | from every safe state, a pass whose spawns succeed ends with exactly the enabled planes running and the flag cleared |
| `Supervisor.ChangeTakesEffect` | gui.py:1900-1940 | after flags change and a process dies, the next undisturbed pass ends with exactly the planes running that the new flags enable |
| `Supervisor.BackendDownLeavesAlone` | gui.py:1901-1902 | while the backend is down a poll starts and stops nothing |
| `Supervisor.EventsMean` | gui.py:1929-1940 | a death, a toggle and a change of the backend do what they say and nothing else; a pass that raised lets the next poll in |
| `DataSources.PutKeeps` | backend/api/routes_data_sources.py:907-1036 | writing a row that agrees with a loader changed only at its old and new slug keeps the stores consistent |
| `DataSources.Service.Load` | backend/services/data_source_loader.py:331-382 | a load replaces the slug's runtime, a failed one keeps the previous runtime |
| `DataSources.Service.Unload` | backend/services/data_source_loader.py:384-388 | only the slug's runtime goes |
| `DataSources.Service.Create` | backend/api/routes_data_sources.py:823-904 | accepted if and only if slug, fields, kind and code pass and the slug is free; every field of the stored row stated, templated code included; the loader gains that runtime if and only if enabled and the load worked, and nothing else changes in it; a refusal changes nothing; consistency is kept |
| `DataSources.Service.Rename` | backend/api/routes_data_sources.py:925-937 | refused exactly for an invalid slug (400) or another row's slug (409) |
| `DataSources.Service.Recode` | backend/api/routes_data_sources.py:967-1005 | accepted if and only if the code resolves and, where looked at, validates; the version rises by one exactly when the stored code changes; a name in the code is taken over unless one is given |
| `DataSources.CodeMeans` | backend/api/routes_data_sources.py:967-995 | for every request, which code is stored (given, kept or the template) and when it is refused |
| `DataSources.NameMeans` | backend/api/routes_data_sources.py:999-1001 | the stored name: given, else found in code that was looked at, else kept |
| `DataSources.RequestedMeans` | backend/api/routes_data_sources.py:925-952 | the other requested fields, one by one |
| `DataSources.DraftMeans` | backend/api/routes_data_sources.py:825-840 | what the template of a new source is built from |
| `DataSources.Service.Synchronise` | backend/api/routes_data_sources.py:1012-1032 | status and loader after a change: old slug dropped, enabled rows loaded or marked failed, disabled rows unloaded |
| `DataSources.Service.Update` | backend/api/routes_data_sources.py:907-1036 | 403, 404, 409 and success each exactly characterised; a refusal changes nothing; success writes one row with the requested fields and resolved code; the whole new loader is stated, changed only when slug, config, code, kind or enabled call for it and only at the row's slugs; after a failed load the slug runs if and only if it is unchanged and ran before, and then the same runtime; consistency is kept |
| `DataSources.Service.Delete` | backend/api/routes_data_sources.py:1039-1056 | row and runtime go together; a system source leaves a tombstone |
| `DataSources.Service.Reload` | backend/api/routes_data_sources.py:1059-1105 | only status and class change in the row; loaded if and only if enabled and the load worked; an error status is stored although the call fails; the whole new loader is stated, and after a failed load it is the old one |
| `DataSources.FailedUpdate` | backend/api/routes_data_sources.py:1012-1029 | a running source updated with code that validates and does not load is stored with the new code and version under its error and goes on running the old code |
| `DataSources.StaleRuntime` | backend/services/data_source_loader.py:331-382 | the same at concrete values, from an empty service |
| `DataSources.Service.Serve` | backend/api/routes_data_sources.py:823-1105 | after any sequence of calls slugs are valid and unique, no runtime lacks a row, disabled rows do not run, and "loaded" means the current code and config run under the current slug |
| `DataSources.Service.RefreshAll` | backend/services/data_source_loader.py:413-502 | from any loader content and any statuses the refresh reaches consistency and changes only statuses and classes; a row whose load fails goes on running exactly what ran under its slug before |
| `ProfileVersions.CommitIff` | backend/models/database.py:5111-5112 | for a well-kept log the commit succeeds exactly for version numbers above the current one |
| `ProfileVersions.EditCommitsIff` | backend/api/routes_discovery_profiles.py:477-579 | an update commits if and only if it changes the code and the code validates; any other requested change is refused; a commit appends one snapshot, keeps the earlier ones, and stores field by field what was given and what was there |
| `ProfileVersions.EditedMeans` | backend/api/routes_discovery_profiles.py:489-527 | each of name, description, code, config, schema, kind and enabled is the requested value if given and the old one if not; the class is what validation finds in new Python code |
| `ProfileVersions.RestoreWorks` | backend/api/routes_discovery_profiles.py:671-736 | restore succeeds for exactly the versions 1 to the current one and appends that snapshot's content as a new version |
| `ProfileVersions.NormalMeans` | backend/api/routes_discovery_profiles.py:699-705 | restored content is the snapshot's, with "python" for an empty kind |
| `ProfileVersions.RunKeeps` | backend/api/routes_discovery_profiles.py:477-736 | over every run of updates and restores: versions 1 to n without gaps, exactly the last snapshot latest and equal to the row, each parent the snapshot before, earlier snapshots unchanged but for the flag |
| `ProfileVersions.LoaderMeans` | backend/api/routes_discovery_profiles.py:529-541 | for every request past validation, what the loader runs afterwards |
| `ProfileVersions.RestoreUndoesAnyRun` | backend/api/routes_discovery_profiles.py:684-736 | after any run, restoring the version that was current before brings back its name, description, code, class, config, schema and kind, up to the default kind |
| `ProfileVersions.RefusedUpdateDiverges` | backend/api/routes_discovery_profiles.py:529-578 | for every profile in step and every request that passes validation, exactly when table and loader agree afterwards, by what the request changes, whether the profile was running, and whether it loads |
| `ProfileVersions.EnablingAloneRunsDisabled` | backend/api/routes_discovery_profiles.py:524-576 | a request that only enables a disabled Python profile is refused, leaves the row disabled, and leaves the loader running it |
| `ProfileVersions.KindChangeKeepsOldCode` | backend/api/routes_discovery_profiles.py:489-541 | new code committed with a kind other than Python leaves the row "loaded" and the old code running |
| `ProfileVersions.ActivateKeeps` | backend/api/routes_discovery_profiles.py:366-372 | activation keeps every history and leaves at most one active profile |
| `ProfileVersions.Store.Create` | backend/api/routes_discovery_profiles.py:394-474 | accepted if and only if slug and code validate and the slug is free; one inactive profile at version 1 with one snapshot of exactly the requested content and the class found in Python code; loaded if and only if enabled, Python and the load worked; no other slug's runtime changes |
| `ProfileVersions.Store.SetActive` | backend/api/routes_discovery_profiles.py:358-376 | exactly the named profile is active afterwards and nothing else about any profile changes; an unknown id changes nothing |
| `ProfileVersions.Store.Amend` | backend/api/routes_discovery_profiles.py:484-527 | the field-by-field assignments and their three change flags come to the declarative edit, each field as requested |
| `ProfileVersions.Store.Update` | backend/api/routes_discovery_profiles.py:477-579 | 400, 404, 500 and success each exactly characterised by the request; a committed row is as requested field by field, one version on, with the status of its load; the loader changes even when the commit is refused |
| `ProfileVersions.Store.RestoreVersion` | backend/api/routes_discovery_profiles.py:671-758 | succeeds exactly for existing versions; appends, keeps the log, and leaves the row in step with the loader |
| `ProfileVersions.Store.Delete` | backend/api/routes_discovery_profiles.py:582-607 | the profile, its snapshots and its runtime go together; a system profile leaves a tombstone |
| `Migrations.UpgradeAchieves` | backend/alembic_helpers.py:66-122 | the table, column or index of every completed operation exists at the end |
| `Migrations.StepMeans` | backend/alembic_helpers.py:66-122 | a wrapper skips if and only if the object is there, applies if and only if it is missing and table, columns and name allow it, and otherwise fails; only an applied operation changes the schema, exactly by what it makes |
| `Migrations.UpgradeAddsOnly` | backend/alembic_helpers.py:66-122 | a script removes no table, column or index, and whatever it adds one of its completed operations makes |
| `Migrations.BaselineUntouched` | backend/alembic_helpers.py:66-122 | a schema that already holds every named object is left unchanged and the script completes |
| `Migrations.RunAgain` | backend/alembic_helpers.py:66-122 | a script that completed is a no-op the second time |
| `Migrations.ResumeEqualsOneRun` | backend/alembic_helpers.py:66-122 | stopping after any completed prefix and running the whole script gives the outcome of one run, failures included |
| `Migrations.AnyInterruptions` | backend/alembic_helpers.py:66-122 | the same after any number of runs stopped anywhere |
| `Migrations.Database.SafeAddColumn` | backend/alembic_helpers.py:66-81 | skips if and only if the column is there, adds it if and only if it is missing and the table exists, fails otherwise |
| `Migrations.Database.SafeCreateTable` | backend/alembic_helpers.py:84-98 | skips if and only if the table is there, creates it if and only if no table or index has the name, fails otherwise |
| `Migrations.Database.SafeCreateIndex` | backend/alembic_helpers.py:101-122 | skips if and only if the index is on the table, creates it if and only if table and columns exist and no table or index has the name, fails otherwise |
| `Slug.CleanTidy` | backend/api/routes_ai.py:41-42 | after the two substitutions and the strip: slug characters only, no double underscore, none at the ends |
| `Slug.CollapseIsSqueeze` | backend/api/routes_ai.py:41-42 | the two regular-expression substitutions equal one pass that turns every run of other characters into one underscore |
| `Slug.CleanIsWords` | backend/api/routes_ai.py:41-42 | the cleaned text is exactly the maximal runs of letters and digits, in order, joined by single underscores |
| `Slug.SlugSaysWords` | backend/api/routes_ai.py:39-56 | for every text, what the slug is: the joined words cut after 50 characters, the prefix for no words, prefix and underscore before fewer than three characters, "s_" before a digit (prefixes up to 47 characters) |
| `Slug.Lengthened` | backend/api/routes_ai.py:43-48 | the digit and length fixes give at least three characters led by a letter |
| `Slug.Truncated` | backend/api/routes_ai.py:49 | the cut to 50 characters and the right strip give a valid slug |
| `Slug.FinishKeeps` | backend/api/routes_ai.py:50-56 | the closing checks leave a valid slug alone |
| `Slug.SlugIsValid` | backend/api/routes_ai.py:39-56 | for every text the result passes the data-source slug pattern and has no double underscore |
| `Slug.FixedIff` | backend/api/routes_data_sources.py:41-71 | the fixed points of the normaliser are exactly the accepted slugs without a double underscore |
| `Slug.SlugifyIdempotent` | backend/api/routes_ai.py:39-56 | normalising twice is normalising once |
| `Slug.PrefixesInUse` | backend/api/routes_ai.py:39 | the three prefixes callers pass are well formed |
| `PythonLiteral.ChainIsSinglePass` | backend/api/routes_ai.py:234-240 | the four successive replacements equal one escape per character |
| `PythonLiteral.LiteralOfOne` | backend/api/routes_ai.py:233-241 | how each character is written |
| `PythonLiteral.LiteralRoundTrip` | backend/api/routes_ai.py:233-241 | reading the literal under Python's escape rules returns the string and stops exactly at its end, whatever source text follows |
| `PythonLiteral.LiteralIsOneLine` | backend/api/routes_ai.py:233-241 | no raw newline or carriage return in the literal |
| `KvBlob.ReadBraces` | tools/crypto_latency_harness.py:177-190 | the depth loop stops just past the brace that closes the first one, or at the end of the text |
| `KvBlob.ReadPair` | tools/crypto_latency_harness.py:163-195 | one turn of the loop splits off one pair and moves forward, or finds that parsing is over |
| `KvBlob.ParseKvBlob` | tools/crypto_latency_harness.py:152-201 | ends on every string; the keys are those of the grammar's pairs assigned in order, and each value is the literal its raw text evaluates to, or the text if it does not |
| `KvBlob.LaterDuplicatesWin` | tools/crypto_latency_harness.py:159-201 | each key has the raw value of its last occurrence and no other key appears |
| `KvBlob.RenderParse` | tools/crypto_latency_harness.py:152-201 | rendering any list of well-formed keys with whitespace-free or brace-balanced values, then parsing, gives the list back |
| `KvBlob.ParseRenderParse` | tools/crypto_latency_harness.py:152-201 | for every text, what is parsed is renderable, and parsing its rendering gives the same pairs |

## Left out

- HTML tokenisation by the standard parser, attribute lists with repeated names (attributes arrive as a dictionary) and the Markdown rendering of `extract_md.py`.
- The limiter reads the clock once per call; the source reads it again inside the bucket a few microseconds later. Times and tokens are reals, so float rounding is not modelled, and buckets are values in a map rather than shared objects.
- The limiter's status report and the middleware's choice of client key.
- Coroutine cancellation in the cached storage summary and file-system errors in the scan.
- Terminate calls that fail, a restart of services concurrent with supervision, Windows job objects, ports, docker, git and all widgets of the launcher.
- Log entries of several lines, levels not written in upper case, the workers' small log panels, the text-to-worker guess and the mapping from source tags to source buckets.
- Threads around the log buffer: enqueue and the swap in flush are atomic under the lock, as in the source.
- Database handlers run one at a time, and a commit fails only on the unique constraint of the profile versions.
- The contents of retention policies, source keys, descriptions and schemas of data sources; their own checks are one flag of the request.
- Stripping and lower-casing of slugs and names happens before the model's requests; for the slug normaliser it is a function parameter.
- Seeding of system sources and profiles, and the reload route of profiles.
- Validation and compilation of user code, and the source templates: both are functions given from outside.
- Column types, constraints and downgrade steps of migrations.
- The evaluation of Python literals by `ast.literal_eval`: a function given from outside.
- Numeric and named escapes when reading Python literals (the printer emits none), and that Python source text may not hold a NUL character: a string with one is printed and read back like any other.
- Length limits that request schemas check before a handler is called.
- The bounded lists of durations and their percentiles (`StageSamples`) in the latency harness: they summarise measurements and take no part in parsing.
- The backtest engine, settlement, fill models, `backend/evosport`, the strategy services, LLM routes and the remaining HTTP routes.
