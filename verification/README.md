# Roamux protocol proofs

A Dafny model of the parts of Roamux whose correctness rests on ordering,
interleaving or arithmetic, with proofs of what they promise. The results are
stated for all inputs, all runs or all reachable states, except for the
concrete inputs that show where a claim fails. `dafny verify dfyconfig.toml`
checks the whole project.

## What is modelled

**Tab-visit navigation** (`mru`, `traversal_controller`, `visits_store`,
`traversal_coordinator`, `tab_visit_system`, `tab_visit_gestures`,
`tab_visit_journal`, `tab_visit_reload`). The traversal controller, the coordinator, the store, the
journal service and the observer bridge are classes whose methods are proved
equal to functions on values. `TabVisitSystem` then composes those functions
into one transition system: UI-thread steps, a FIFO of store tasks that run on
their own sequence, and replies that land at any later time and in any order.
Clears, reloads, closes, reopens and gestures interleave freely in it. The
index everything must agree with is a plain move-to-front list. Four fields of
the system and `closedIn`/`begunIn` are history variables that no transition
reads: they let the theorems say "closed after the latest clear" and "begun
before that clear".

**Refresh pacing** (`refresh_scheduler`, `refresh_pacing`,
`refresh_exact_pacing`, `settle_gate`, `refresh_run`, `refresh_run_notices`). The scheduler runs against an environment that answers for
the clock and the delegate: how long a call took, whether a dialog defers it,
whether the item began, which settle reports it made from inside the call.
Timers fire late but never early. The settle gate is compared with a reading of
the event trace that does not mention its fields, and what a run reports with a
reading of the run's own observations.

**IndexedDB import** (`indexed_db_import`). `CopyStores` runs against a
directory which another actor may extend before every file operation and where
every operation may fail.

**Edge import coordinator and report** (`import_coordinator`,
`import_report`). The callback chain is a transition system in which the
environment answers the one outstanding request.

**localStorage import** (`local_storage_import`). Key splitting, grouping and
the Put counter, with replies that may come before Put returns.

**Group-header double click** (`group_double_click`). The gesture automaton and
the bulk pass; observers may change the window arbitrarily during each toggle
and may start a nested pass. The end-to-end results are about a calm window:
its groups and their collapsed states change by toggles alone, while the active
tab may move, and the groups may be listed in another order, at any moment.

**Tab uids** (`tab_uid`). The registry's two maps, the helper's life on a web
contents, and runs of both.

**Ed25519** (`modular`, `little_endian`, `scalar_groups`, `ed25519_ref`,
`ed25519_roots`, `ed25519_addition`, `ed25519_codec`, `ed25519_signatures`). The reference over a
parameter record, proved from stated hypotheses only: Fermat's little theorem
for q, q = 5 mod 8, i a square root of -1, d not a square (`FieldFacts`);
Edwards addition a commutative group on curve points (`GroupFacts`); the base
point of order exactly l (`BaseFacts`). The absence of zero divisors, inverses,
the square root, the point codec, that addition is defined everywhere on the
curve, commutes and has its identity, double-and-add and the signature equations
are derived; closure and associativity of addition are only assumed.

## Where an obvious claim is false

- Forward undoes Back only from a landable cursor: `TraversalController.ForwardUndoesBackIff`.
- The settle gate remembers only the last start inside the load call: `SettleGate.EarlierBufferedStartIsLost`.
- Report entries have no fixed order: `EdgeImportCoordinator.CookiesFirstIff` and `EdgeImportCoordinator.CookiesCanComeFirst`.
- Trimming visits keeps their sidecar rows; only a clear removes rows: `VisitsStore.OnlyClearsDropSidecarRows`.
- The header of the tab-uid service (`roamux/browser/tabs/tab_uid_service.h:34-38`) promises adoption of a uid that is not live "on another tab"; the code also refuses a uid live on the asking tab: `TabUid.PromiseMetIff` says when the promise is met, `TabUid.OwnUidIsRestamped` what happens otherwise.
- Equal sizes plus one-way inclusion give equal id sets for distinct ids, which a window's groups have (`GroupDoubleClick.MatchesBothWays`); for lists with a repeated id they may not (`GroupDoubleClick.DuplicateIdsBreakTheTest`).
- Splitting a database key at the first zero recovers the storage key exactly when that key holds no zero byte: `LocalStorageImport.SplitUndoesLayout`.

## Model

| member | source | states |
|---|---|---|
| `Mru.DeriveMruOrder` | roamux/browser/tab_visit/tab_traversal_controller.cc:8-20 | the newest-to-oldest scan with a seen set is the move-to-front list of the log |
| `Mru.ScanIsMoveToFront` | roamux/browser/tab_visit/tab_traversal_controller.cc:8-20 | from any seen set, the scan emits the move-to-front list minus what was seen |
| `Mru.MruIsASet` | roamux/browser/tab_visit/tab_traversal_controller.cc:8-20 | the order has no duplicates, holds exactly the visited uids and starts with the newest |
| `Mru.MruOrderedByLastVisit` | roamux/browser/tab_visit/tab_traversal_controller.cc:8-20 | earlier in the order means visited last at a later position |
| `Mru.RecordedMovesToFront` | roamux/browser/tab_visit/tab_visit_traversal_coordinator.cc:153-162 | recording a uid, coalesced or not, moves it to the front of the order |
| `Mru.CoalescingKeepsMru` | roamux/browser/tab_visit/tab_visit_traversal_coordinator.cc:77-83 | dropping consecutive duplicates changes no order and keeps the tail |
| `Mru.MruOfConcat` | roamux/browser/tab_visit/tab_traversal_controller.cc:8-20 | the order of two logs in a row is the newer one's order followed by what only the older one holds |
| `Mru.ReloadMergesToPrefix` | roamux/browser/tab_visit/tab_visit_traversal_coordinator.cc:64-86 | a read that lost any number of oldest rows and overlaps the runtime log merges to a prefix of the full history's order, the whole of it when nothing was lost |
| `TraversalController.TabTraversalController.BeginGesture` | roamux/browser/tab_visit/tab_traversal_controller.cc:37-53 | freezes order and landability, or does nothing while a gesture is active |
| `TraversalController.TabTraversalController.NextLandableAfter` | roamux/browser/tab_visit/tab_traversal_controller.cc:55-62 | the smallest landable index after the given one, or -1 exactly when there is none |
| `TraversalController.TabTraversalController.PrevLandableBefore` | roamux/browser/tab_visit/tab_traversal_controller.cc:64-71 | the largest landable index before the given one, or -1 exactly when there is none |
| `TraversalController.TabTraversalController.CanGoBack` | roamux/browser/tab_visit/tab_traversal_controller.cc:73-75 | true exactly when some later index is landable |
| `TraversalController.TabTraversalController.CanGoForward` | roamux/browser/tab_visit/tab_traversal_controller.cc:77-79 | true exactly when some earlier index is landable |
| `TraversalController.TabTraversalController.StepBack` | roamux/browser/tab_visit/tab_traversal_controller.cc:81-88 | moves the cursor to the next landable index and returns its uid, or changes nothing |
| `TraversalController.TabTraversalController.StepForward` | roamux/browser/tab_visit/tab_traversal_controller.cc:90-97 | moves the cursor to the previous landable index and returns its uid, or changes nothing |
| `TraversalController.TabTraversalController.Settle` | roamux/browser/tab_visit/tab_traversal_controller.cc:108-115 | returns the landed uid if landable and clears the walk |
| `TraversalController.CanBeginBackTraversal` | roamux/browser/tab_visit/tab_traversal_controller.cc:22-32 | the loop decides whether something reachable is older than the tail |
| `TraversalController.CanBeginMeansBackLands` | roamux/browser/tab_visit/tab_traversal_controller.cc:22-53 | pre-gesture enablement holds exactly when the first Back of the gesture it opens lands |
| `TraversalController.StopsAreTheLandables` | roamux/browser/tab_visit/tab_traversal_controller.cc:55-62 | the stops after a cursor are all landable indices after it, ascending |
| `TraversalController.BackVisitsTheStops` | roamux/browser/tab_visit/tab_traversal_controller.cc:81-88 | n Backs rest on the n-th stop, once each, and stay on the last one |
| `TraversalController.ForwardUndoesBackIff` | roamux/browser/tab_visit/tab_traversal_controller.cc:81-97 | Forward undoes a landing Back exactly from a landable cursor; otherwise it stays on the landing |
| `TraversalController.ForwardsUndoBacks` | roamux/browser/tab_visit/tab_traversal_controller.cc:81-97 | n landing Backs are undone by n Forwards from a landable cursor |
| `TraversalController.EnabledIffLands` | roamux/browser/tab_visit/tab_traversal_controller.cc:73-106 | each direction's enablement is exactly that its step lands, and Current is then the landing |
| `VisitsStore.VisitsStore.Append` | roamux/browser/tab_visit/visits_store.cc:162-193 | appends with a new id and keeps the newest 999 rows |
| `VisitsStore.VisitsStore.UpsertTabState` | roamux/browser/tab_visit/visits_store.cc:108-121 | inserts or replaces one sidecar row |
| `VisitsStore.VisitsStore.ReadAll` | roamux/browser/tab_visit/visits_store.cc:195-211 | all visits, in ascending id order for every valid store; nothing while closed |
| `VisitsStore.VisitsStore.ClearForBrowsingDataRemoval` | roamux/browser/tab_visit/visits_store.cc:224-263 | takes the range, then collects orphaned closed rows |
| `VisitsStore.ClearTakesTheRange` | roamux/browser/tab_visit/visits_store.cc:234-249 | a clear removes exactly the visits in [begin, end), absent bounds reaching every real visit |
| `VisitsStore.ClearCollectsOrphans` | roamux/browser/tab_visit/visits_store.cc:251-260 | a sidecar row survives, unchanged, exactly when it is live or named by a surviving visit |
| `VisitsStore.RunKeepsTheNewest` | roamux/browser/tab_visit/visits_store.cc:162-263 | over any run the table is, in strictly increasing id order, the uncleared appends that were never crowded out by 999 newer ones |
| `VisitsStore.OnlyClearsDropSidecarRows` | roamux/browser/tab_visit/visits_store.cc:182-192 | a sidecar row disappears only in a run with a clear |
| `VisitsStore.SidecarHoldsTheLastUpsert` | roamux/browser/tab_visit/visits_store.cc:108-121 | over any run the row under a key is the last one upserted, present exactly when every later clear spared it |
| `VisitsStore.SidecarInventsNothing` | roamux/browser/tab_visit/visits_store.cc:108-121 | a key that is never upserted holds what it held before the run, or nothing |
| `JournalService.SettledVisitJournalService.RecordVisit` | roamux/browser/tab_visit/settled_visit_journal_service.cc:41-48 | posts one append behind everything posted before |
| `JournalService.SettledVisitJournalService.GetVisits` | roamux/browser/tab_visit/settled_visit_journal_service.cc:50-57 | posts one read behind everything posted before |
| `JournalService.SettledVisitJournalService.ClearBrowsingData` | roamux/browser/tab_visit/settled_visit_journal_service.cc:59-71 | posts one clear behind everything posted before |
| `JournalService.SettledVisitJournalService.GetAllTabStates` | roamux/browser/tab_visit/settled_visit_journal_service.cc:73-80 | posts one sidecar read that carries the caller's generation |
| `JournalService.SettledVisitJournalService.SetTabState` | roamux/browser/tab_visit/settled_visit_journal_service.cc:82-87 | posts one upsert behind everything posted before |
| `TraversalCoordinator.TabVisitTraversalCoordinator.OnJournalLoaded` | roamux/browser/tab_visit/tab_visit_traversal_coordinator.cc:64-86 | the loops leave the coalesced concatenation of non-empty persisted uids and the runtime log |
| `TraversalCoordinator.TabVisitTraversalCoordinator.RecordSettledUid` | roamux/browser/tab_visit/tab_visit_traversal_coordinator.cc:153-162 | appends unless empty or equal to the tail |
| `TraversalCoordinator.TabVisitTraversalCoordinator.EnsureGesture` | roamux/browser/tab_visit/tab_visit_traversal_coordinator.cc:164-172 | anchors at the tail and freezes the walk, or does nothing mid-gesture |
| `TraversalCoordinator.TabVisitTraversalCoordinator.StepBack` | roamux/browser/tab_visit/tab_visit_traversal_coordinator.cc:182-211 | opens no gesture that cannot land; otherwise steps, resolves or reopens, and rearms the debounce |
| `TraversalCoordinator.TabVisitTraversalCoordinator.StepForward` | roamux/browser/tab_visit/tab_visit_traversal_coordinator.cc:182-222 | as StepBack, only inside a gesture |
| `TraversalCoordinator.TabVisitTraversalCoordinator.Settle` | roamux/browser/tab_visit/tab_visit_traversal_coordinator.cc:224-269 | ends the gesture; commits a landing off the anchor that resolves (what is journaled, and under which URL: `TabVisitJournal.SettledVisitIsJournaled`) |
| `TraversalCoordinator.TabVisitTraversalCoordinator.CancelGesture` | roamux/browser/tab_visit/tab_visit_traversal_coordinator.cc:271-278 | drops the gesture without a commit |
| `TraversalCoordinator.TabVisitTraversalCoordinator.AddReopenable` | roamux/browser/tab_visit/tab_visit_traversal_coordinator.cc:312-321 | caches the row and lifts its tombstone |
| `TraversalCoordinator.TabVisitTraversalCoordinator.PrepareForBrowsingDataClear` | roamux/browser/tab_visit/tab_visit_traversal_coordinator.cc:323-345 | cancels, empties the caches and moves to the next generation |
| `TraversalCoordinator.TabVisitTraversalCoordinator.TryReopenClosedUid` | roamux/browser/tab_visit/tab_visit_traversal_coordinator.cc:381-411 | on success rebinds the sidecar row as open and leaves a tombstone; otherwise changes nothing |
| `TraversalCoordinator.TabVisitTraversalCoordinator.OnReopenableLoaded` | roamux/browser/tab_visit/tab_visit_traversal_coordinator.cc:425-442 | ignores another generation; otherwise adds closed, untombstoned rows without clobbering |
| `TraversalCoordinator.ClearJournalForBrowsingData` | roamux/browser/tab_visit/settled_visit_journal_factory.cc:46-72 | prepares the coordinator before the store clear is posted |
| `TraversalCoordinator.TabVisitObserverBridge.PersistClosedTabsToSidecar` | roamux/browser/tab_visit/tab_visit_observer_bridge.cc:53-86 | each really deleted tab with a uid becomes reopenable at once and its row is posted |
| `TraversalCoordinator.TabVisitObserverBridge.OnTabStripModelChanged` | roamux/browser/tab_visit/tab_visit_observer_bridge.cc:103-164 | closes persist first; a plain selection commits unless a gesture is active |
| `TabVisitSystem.StepKeepsInv` | roamux/browser/tab_visit/tab_visit_traversal_coordinator.cc:312-442 | every UI step, store task and reply keeps the clear and gesture invariants |
| `TabVisitSystem.ReopenableRowsOutliveNoClear` | roamux/browser/tab_visit/tab_visit_traversal_coordinator.cc:323-355 | in every run each cached row was closed after the latest prepared clear or survived that clear's collection, and is not tombstoned |
| `TabVisitSystem.RepliesAreCurrentOrInert` | roamux/browser/tab_visit/tab_visit_traversal_coordinator.cc:425-432 | a sidecar reply of an older generation changes nothing; a current one was read after every prepared clear had run |
| `TabVisitSystem.NoVisitCrossesAClear` | roamux/browser/tab_visit/settled_visit_journal_factory.cc:57-71 | no gesture begun before a clear posts a visit behind it |
| `TabVisitGestures.InsideAGesture` | roamux/browser/tab_visit/tab_visit_traversal_coordinator.cc:164-278 | during a gesture the tail stays the anchor, the debounce stays armed and nothing is journaled, whatever happens |
| `TabVisitGestures.EndsAreTheEnds` | roamux/browser/tab_visit/tab_visit_traversal_coordinator.cc:224-278 | a gesture ends exactly at a settle, a cancel or a clear |
| `TabVisitGestures.EndingAGesture` | roamux/browser/tab_visit/tab_visit_traversal_coordinator.cc:224-269 | the end appends one log entry exactly when the settle lands off the anchor and resolves, with at most one journal row, for that uid |
| `TabVisitGestures.GestureCommitsOnce` | roamux/browser/tab_visit/tab_visit_observer_bridge.cc:130-144 | from any reachable state inside a gesture through any events to its end: one commit or none, as above |
| `TabVisitGestures.GestureWalks` | roamux/browser/tab_visit/tab_visit_traversal_coordinator.cc:164-222 | over any events inside a gesture only Back and Forward commands move the frozen walk |
| `TabVisitGestures.BacksThenSettleMovesToFront` | roamux/browser/tab_visit/tab_visit_traversal_coordinator.cc:200-269 | n Back commands, each in its own view and with any closes, reopens, replies, store tasks and loads in between, then a settle: the n-th reachable older tab (the last one for larger n) moves to the front if it resolves, live or by reopening; otherwise the log stays |
| `TabVisitGestures.StartIsNextInLine` | roamux/browser/tab_visit/tab_visit_traversal_coordinator.cc:164-269 | after a one-step gesture that landed, in any later state with that log, the starting tab is the next first stop exactly when it is reachable, live or reopenable |
| `TabVisitGestures.TwoGesturesReturn` | roamux/browser/tab_visit/tab_visit_traversal_coordinator.cc:164-269 | two one-step gestures, the starting tab reachable when the second begins: they end on it exactly when it resolves at the second settle |
| `TabVisitGestures.OlderReachableAre` | roamux/browser/tab_visit/tab_visit_traversal_coordinator.cc:297-310 | Back can reach exactly the visited tabs other than the current one that are live or, with reopening on, closed and known |
| `TabVisitGestures.OlderReachableInOrder` | roamux/browser/tab_visit/tab_visit_traversal_coordinator.cc:164-172 | and reaches them most recently visited first |
| `TabVisitJournal.SettledVisitIsJournaled` | roamux/browser/tab_visit/tab_visit_traversal_coordinator.cc:241-269 | from any state between gestures and through any events that end none: a settle that finds its landing posts exactly one visit of it, under the committed URL if recordable, else under the URL its closed row had if this gesture reopened it and that URL is recordable, else none; the log grows by the landing either way |
| `TabVisitJournal.GestureRemembers` | roamux/browser/tab_visit/tab_visit_traversal_coordinator.cc:391-396 | inside a gesture the remembered URLs are exactly those of the rows reopened since it began |
| `TabVisitJournal.CommandReopens` | roamux/browser/tab_visit/tab_visit_traversal_coordinator.cc:182-222 | an enabled Back or Forward posts one open row for its landing, uncaches and tombstones it, exactly when the landing is not live, reopening is on, the cache has it and the reopen succeeds; otherwise it posts nothing; a disabled one does nothing |
| `TabVisitJournal.ActivationIsRecorded` | roamux/browser/tab_visit/tab_visit_observer_bridge.cc:130-164 | a change of the active tab by plain selection outside a gesture records its uid and journals one visit if its URL is recordable; no other change does either |
| `TabVisitJournal.RemovalPersistsTheClosed` | roamux/browser/tab_visit/tab_visit_observer_bridge.cc:53-86 | every really deleted tab with a uid is reopenable at once from its last row, its tombstone lifted, and exactly those rows are posted in order; every other uid is untouched |
| `TabVisitJournal.OthersJournalNothing` | roamux/browser/tab_visit/tab_visit_observer_bridge.cc:130-144 | only a settle and an activation ever post a visit |
| `TabVisitJournal.ReplyAddsTheClosed` | roamux/browser/tab_visit/tab_visit_traversal_coordinator.cc:425-442 | a current sidecar reply adds exactly the closed, keyed rows that are neither cached nor reopened since, and changes no cached row; a stale one adds nothing; a finished clear is answered by a read of the current generation |
| `TabVisitJournal.ReopenedStaysReopened` | roamux/browser/tab_visit/tab_visit_traversal_coordinator.cc:401-411 | in every run a uid is tombstoned exactly when the last row posted for it is a reopening's, and then it is not cached, whatever replies land |
| `TabVisitJournal.CloseBackSettle` | roamux/browser/tab_visit/tab_visit_traversal_coordinator.cc:381-411 | end to end: close a tab, go Back to it, settle: its row is posted open and one visit is journaled, under the committed URL or else the URL it was closed with |
| `TabVisitReload.ReloadNeverReorders` | roamux/browser/tab_visit/tab_visit_traversal_coordinator.cc:50-86 | without a clear, for any history, any trim and any landing point of the startup read, the log's order is a prefix of the untrimmed history's, and equals it when nothing was trimmed |
| `RefreshScheduler.FromMilliseconds` | roamux/browser/tabs/initial_url_refresh_scheduler.cc:14-35 | out-of-range values fall to their defaults, in-range ones are kept, and a floor above the interval becomes the interval |
| `RefreshScheduler.InitialUrlRefreshScheduler.Start` | roamux/browser/tabs/initial_url_refresh_scheduler.cc:50-58 | resets the run and offers items from the first one |
| `RefreshScheduler.InitialUrlRefreshScheduler.NotifyItemSettled` | roamux/browser/tabs/initial_url_refresh_scheduler.cc:60-73 | posts only the awaited index of a running run |
| `RefreshScheduler.InitialUrlRefreshScheduler.Cancel` | roamux/browser/tabs/initial_url_refresh_scheduler.cc:75-82 | finishes a running run and is inert otherwise |
| `RefreshScheduler.InitialUrlRefreshScheduler.RunFromCursor` | roamux/browser/tabs/initial_url_refresh_scheduler.cc:84-138 | the loop defers, starts, skips or finishes, with the backstop anchored to the start |
| `RefreshScheduler.InitialUrlRefreshScheduler.OnSettled` | roamux/browser/tabs/initial_url_refresh_scheduler.cc:140-146 | re-validates and starts the next item now, or when the floor after the last start has passed |
| `RefreshScheduler.InitialUrlRefreshScheduler.OnTimer` | roamux/browser/tabs/initial_url_refresh_scheduler.cc:148-163 | each timer kind resumes the run as it was armed to |
| `RefreshScheduler.InitialUrlRefreshScheduler.AdvanceAndScheduleNext` | roamux/browser/tabs/initial_url_refresh_scheduler.cc:165-182 | next item, now or when the floor allows, or the end |
| `RefreshScheduler.InitialUrlRefreshScheduler.Finish` | roamux/browser/tabs/initial_url_refresh_scheduler.cc:184-196 | stops the timer, drops the posted settles and reports the end once |
| `RefreshPacing.StepIsGood` | roamux/browser/tabs/initial_url_refresh_scheduler.cc:50-196 | every event keeps the pacing invariant |
| `RefreshPacing.StartsKeepTheFloor` | roamux/browser/tabs/initial_url_refresh_scheduler.cc:140-182 | successive starts are at least min_spacing apart, whatever lateness, skips, deferrals, settles or latency |
| `RefreshPacing.EachItemOnceAndAlwaysArmed` | roamux/browser/tabs/initial_url_refresh_scheduler.cc:84-196 | StartItem sees 0, 1, 2, ... without gap or repeat, all items unless cancelled; one finish per run; a running scheduler has its timer armed |
| `RefreshPacing.UnwantedSettlesAreInert` | roamux/browser/tabs/initial_url_refresh_scheduler.cc:60-82 | duplicate, stale and post-cancel settles change nothing |
| `RefreshPacing.MovesDoWork` | roamux/browser/tabs/initial_url_refresh_scheduler.cc:84-182 | every timer firing or awaited settle uses up work or spends a deferral |
| `RefreshPacing.RunsEndAfterBoundedMoves` | roamux/browser/tabs/initial_url_refresh_scheduler.cc:84-196 | a run of n items is moved at most 2n times plus its deferrals |
| `RefreshPacing.PunctualRunsKeepTheCeiling` | roamux/browser/tabs/initial_url_refresh_scheduler.cc:110-156 | with punctual timers, no deferral and an instantaneous delegate, starts are at most interval apart and N of them span between (N-1)*min_spacing and (N-1)*interval |
| `RefreshExactPacing.TurnIsATurn` | roamux/browser/tabs/initial_url_refresh_scheduler.cc:84-138 | a turn offers the items from the cursor up to the first that is deferred or begins, records a start only for the latter, arms exactly its timer (defer: an interval from now; backstop: an interval from its own start), posts exactly the reports made about the item being offered, and ends the run after the last item |
| `RefreshExactPacing.StartOffersTheFirst` | roamux/browser/tabs/initial_url_refresh_scheduler.cc:50-58 | a run offers its first item at once |
| `RefreshExactPacing.FiringOffersTheNext` | roamux/browser/tabs/initial_url_refresh_scheduler.cc:148-163 | whichever timer fires, the next item not yet handed out comes up at once |
| `RefreshExactPacing.SettleBringsTheNextForward` | roamux/browser/tabs/initial_url_refresh_scheduler.cc:140-146 | an awaited settle offers the next item at once if the floor under the last start has passed, and otherwise arms the timer for exactly that moment |
| `RefreshExactPacing.AwaitedReportsArePosted` | roamux/browser/tabs/initial_url_refresh_scheduler.cc:60-73 | a report about the item started last, while it is awaited, is posted; any other is dropped |
| `RefreshExactPacing.UnawaitedDeliveryIsInert` | roamux/browser/tabs/initial_url_refresh_scheduler.cc:140-144 | a delivered settle that nothing waits for only leaves the queue |
| `RefreshExactPacing.PacingIsExact` | roamux/browser/tabs/initial_url_refresh_scheduler.cc:84-182 | with punctual timers, no deferral and a delegate that starts each item at once, successive starts differ by exactly the settle time clamped between min_spacing and interval, and by interval without a settle; the armed timer says when the next is due |
| `SettleGate.NavigationSettleGate.OnStopLoading` | roamux/browser/tabs/navigation_settle_gate.cc:39-51 | settles exactly in a started attempt outside the load call, once |
| `SettleGate.NavigationSettleGate.AttemptIssued` | roamux/browser/tabs/navigation_settle_gate.cc:14-27 | recognises the buffered start if it carries the issued id |
| `SettleGate.NavigationSettleGate.OnNavigationStarted` | roamux/browser/tabs/navigation_settle_gate.cc:29-37 | buffers inside the call, matches the issued id outside it |
| `SettleGate.GateFollowsTrace` | roamux/browser/tabs/navigation_settle_gate.cc:7-64 | on every event sequence the call flag, the buffered id and the started flag are what the trace reading says, and so is the issued id until the attempt has started |
| `SettleGate.NavigationFollowsTrace` | roamux/browser/tabs/navigation_settle_gate.cc:7-64 | the navigation id is 0 or the latest unsuperseded issue, and the latter while the attempt is started |
| `SettleGate.GateSettlesExactlyAtSpec` | roamux/browser/tabs/navigation_settle_gate.cc:39-51 | the gate settles on exactly the stops the trace reading names |
| `SettleGate.EarlierBufferedStartIsLost` | roamux/browser/tabs/navigation_settle_gate.cc:29-33 | a start with our id that is followed by another one inside the call is not remembered |
| `RefreshRun.InitialUrlRefreshRun.StartItem` | roamux/browser/tabs/initial_url_refresh_run.cc:88-147 | resets the gate, and begins a load only when a handle came back |
| `RefreshRun.InitialUrlRefreshRun.DidStopLoading` | roamux/browser/tabs/initial_url_refresh_run.cc:177-190 | discards a vanished attempt, then notifies the current item if the gate settles (exactly when: `RefreshRunNotices.ReportedExactlyWhenSettled`) |
| `RefreshRun.RunIsGood` | roamux/browser/tabs/initial_url_refresh_run.cc:88-190 | in every run each notice was earned by a start with its attempt's own id |
| `RefreshRun.OneNoticePerItem` | roamux/browser/tabs/initial_url_refresh_run.cc:169-190 | with ids that are not reused, at most one notice per load call, earned by a start with an id no earlier load call was given |
| `RefreshRun.EachItemReportedOnce` | roamux/browser/tabs/initial_url_refresh_run.cc:88-92 | when no item is dequeued twice, no item index is reported to the scheduler twice and each is one that was dequeued |
| `RefreshRun.RunNamesItems` | roamux/browser/tabs/initial_url_refresh_run.cc:177-190 | in every run the index a notice reports is that of the load call which earned it |
| `RefreshRunNotices.ReportedExactlyWhenSettled` | roamux/browser/tabs/initial_url_refresh_run.cc:169-190 | after any events, an event reports an item if and only if it is a stop of a watched tab whose own load has started (its id came back, and a primary start carried it, last inside the call or later before a stop found the handle gone) and that no earlier stop settled; it reports that load and its item |
| `RefreshRunNotices.SchedulerHears` | roamux/browser/tabs/initial_url_refresh_run.cc:177-190 | the items reported over a whole run are exactly those, in order |
| `RefreshRunNotices.BeganIffNavigating` | roamux/browser/tabs/initial_url_refresh_run.cc:128-147 | StartItem says a load began exactly when the call returned a navigation, makes one attempt per call, and reports nothing by itself |
| `RefreshAllCommand.RefreshAllCommand.RetireFinishedRun` | roamux/browser/tabs/refresh_all_initial_urls_command.cc:45-54 | unlinks exactly that run and leaves a successor alone |
| `RefreshAllCommand.RefreshAllCommand.RefreshAllInitialUrls` | roamux/browser/tabs/refresh_all_initial_urls_command.cc:70-89 | cancels a live run or starts one; the map holds a run exactly while it is running |
| `RefreshAllCommand.RefreshAllCommand.Deliver` | roamux/browser/tabs/refresh_all_initial_urls_command.cc:45-54 | whatever finishes a run also retires it before returning; closing the browser ends its run once |
| `IndexedDbImport.OriginBaseStripsPairs` | roamux/browser/importer/roamux_indexed_db_import_stage.cc:45-55 | a leveldb and blob pair share their origin's base, and only those names and the base itself do |
| `IndexedDbImport.GroupStores` | roamux/browser/importer/roamux_indexed_db_import_stage.cc:74-79 | the groups partition the source stores by base, in listing order |
| `IndexedDbImport.FileSystem.PublishExclusive` | roamux/browser/importer/roamux_indexed_db_import_stage.cc:32-39 | moves a staged directory to a name that is free, or changes nothing of ours |
| `IndexedDbImport.StageGroup` | roamux/browser/importer/roamux_indexed_db_import_stage.cc:95-107 | every copy goes to a name that is new in the staging root, with the source's contents |
| `IndexedDbImport.PublishStaged` | roamux/browser/importer/roamux_indexed_db_import_stage.cc:113-122 | publishes a prefix of the group, replacing nothing |
| `IndexedDbImport.RollBack` | roamux/browser/importer/roamux_indexed_db_import_stage.cc:123-128 | deletes exactly what this group published |
| `IndexedDbImport.ImportGroup` | roamux/browser/importer/roamux_indexed_db_import_stage.cc:82-130 | a group ends wholly published with source contents or leaves nothing of ours |
| `IndexedDbImport.CopyStores` | roamux/browser/importer/roamux_indexed_db_import_stage.cc:57-133 | nothing foreign is overwritten or deleted, the additions are exactly the published origins' stores, the count is their number, staging is gone, and undisturbed every free origin is published |
| `IndexedDbImport.RerunAfterSuccess` | roamux/browser/importer/roamux_indexed_db_import_stage.cc:82-93 | after a run that published every origin a second run publishes nothing and returns 0 |
| `EdgeImportReports.EdgeImportReport.Find` | roamux/browser/importer/edge_import_report.cc:47-54 | the first entry of the carrier, or none |
| `EdgeImportReports.EdgeImportReport.TotalImported` | roamux/browser/importer/edge_import_report.cc:56-62 | the sum of all counts |
| `EdgeImportReports.EdgeImportReport.AnyDegraded` | roamux/browser/importer/edge_import_report.cc:64-79 | true exactly when some entry is neither imported nor skipped |
| `EdgeImportReports.FindsWhatIsTallied` | roamux/browser/importer/edge_import_report.cc:47-54 | the lookup succeeds exactly for carriers with an entry |
| `EdgeImportCoordinator.RoamuxEdgeImportCoordinator.RunImport` | roamux/browser/importer/roamux_edge_import_coordinator.cc:44-67 | disabled: one entry per requested carrier and the end; enabled: the preflight |
| `EdgeImportCoordinator.RoamuxEdgeImportCoordinator.SecretStep` | roamux/browser/importer/roamux_edge_import_coordinator.cc:78-136 | reports carriers without a source and starts the stage for the others |
| `EdgeImportCoordinator.RoamuxEdgeImportCoordinator.SecretDone` | roamux/browser/importer/roamux_edge_import_coordinator.cc:138-173 | one entry per attempted secret carrier, with its own count |
| `EdgeImportCoordinator.RoamuxEdgeImportCoordinator.LocalStorageStep` | roamux/browser/importer/roamux_edge_import_coordinator.cc:175-194 | skips, reports unsupported, or asks for the destination's usage |
| `EdgeImportCoordinator.RoamuxEdgeImportCoordinator.LocalStorageUsageChecked` | roamux/browser/importer/roamux_edge_import_coordinator.cc:196-209 | blocks on a used destination, else starts the stage |
| `EdgeImportCoordinator.RoamuxEdgeImportCoordinator.LocalStorageDone` | roamux/browser/importer/roamux_edge_import_coordinator.cc:211-231 | imported only with Edge stopped and something accepted |
| `EdgeImportCoordinator.RoamuxEdgeImportCoordinator.IndexedDbStep` | roamux/browser/importer/roamux_edge_import_coordinator.cc:233-264 | blocks on a running Edge or an initialised destination, else starts the stage |
| `EdgeImportCoordinator.RoamuxEdgeImportCoordinator.IndexedDbDone` | roamux/browser/importer/roamux_edge_import_coordinator.cc:266-280 | the last entry and the single delivery |
| `EdgeImportCoordinator.ReceiveKeeps` | roamux/browser/importer/roamux_edge_import_coordinator.cc:69-276 | every reply keeps the report equal to the verdicts due so far |
| `EdgeImportCoordinator.EveryRunHasAWorld` | roamux/browser/importer/roamux_edge_import_coordinator.cc:59-263 | each request is made at most once, so any run's replies are one environment's answers |
| `EdgeImportCoordinator.AlwaysAnswerable` | roamux/browser/importer/roamux_edge_import_coordinator.cc:44-280 | an unfinished import always waits on a request that can be answered |
| `EdgeImportCoordinator.EndedIsComplete` | roamux/browser/importer/roamux_edge_import_coordinator.cc:278-280 | at the end exactly one report has been delivered, after at most five replies |
| `EdgeImportCoordinator.ReportAccountsForEveryCarrier` | roamux/browser/importer/roamux_edge_import_coordinator.cc:44-280 | each requested carrier has exactly one entry, its verdict, and no other carrier has any |
| `EdgeImportCoordinator.StatusesAreHonest` | roamux/browser/importer/roamux_edge_import_coordinator.cc:138-276 | imported means a positive count with Edge stopped; blocked, unsupported and disabled entries count zero |
| `EdgeImportCoordinator.StagesStarted` | roamux/browser/importer/roamux_edge_import_coordinator.cc:112-264 | a stage starts exactly for the requested carriers it may serve, IndexedDB only with Edge stopped and a fresh destination |
| `EdgeImportCoordinator.UndegradedMeansAllClean` | roamux/browser/importer/edge_import_report.cc:64-79 | any_degraded is false exactly when every requested carrier imported cleanly |
| `EdgeImportCoordinator.TotalIsTheSum` | roamux/browser/importer/edge_import_report.cc:56-62 | the delivered report's total is the sum over requested carriers of what their stages reported |
| `EdgeImportCoordinator.CookiesFirstIff` | roamux/browser/importer/roamux_edge_import_coordinator.cc:86-98 | in the delivered report Cookies precede Passwords exactly when the feature is on and only Cookies lack a source |
| `EdgeImportCoordinator.CookiesCanComeFirst` | roamux/browser/importer/roamux_edge_import_coordinator.cc:95-98 | a concrete run whose delivered report has Cookies before Passwords |
| `LocalStorageImport.FindSeparator` | roamux/browser/importer/edge_local_storage_reader.cc:90-97 | the first zero byte, or none exactly when there is none |
| `LocalStorageImport.SplitUndoesLayout` | roamux/browser/importer/edge_local_storage_reader.cc:85-102 | splitting recovers the laid-out parts exactly when the storage key holds no zero |
| `LocalStorageImport.LayoutUndoesSplit` | roamux/browser/importer/edge_local_storage_reader.cc:85-102 | what splits is a layout of its parts, and every layout splits |
| `LocalStorageImport.ReadEdgeLocalStorage` | roamux/browser/importer/edge_local_storage_reader.cc:79-125 | per storage key in first-seen order, exactly the (script key, value) of its rows in database order, for the keys that parse and are first-party; nothing of a failed read |
| `LocalStorageImport.KeptIff` | roamux/browser/importer/edge_local_storage_reader.cc:85-111 | a row is kept exactly when it splits and its storage key parses as first-party |
| `LocalStorageImport.GroupedFromRows` | roamux/browser/importer/edge_local_storage_reader.cc:104-120 | the entries of a group are the rows laid out under its key, script key first and value second, in database order |
| `LocalStorageImport.SeenInRowOrder` | roamux/browser/importer/edge_local_storage_reader.cc:113-119 | the groups are the first-party keys in the order their first rows come |
| `LocalStorageImport.GroupsReadRows` | roamux/browser/importer/edge_local_storage_reader.cc:83-121 | the result read straight off the database rows |
| `LocalStorageImport.FirstSeenDistinct` | roamux/browser/importer/edge_local_storage_reader.cc:113-120 | one group per storage key, and only for keys that occur |
| `LocalStorageImport.GroupingConserves` | roamux/browser/importer/edge_local_storage_reader.cc:113-120 | grouping loses and doubles no row |
| `LocalStorageImport.EveryDataRowIsPut` | roamux/browser/importer/roamux_origin_storage_import_stage.cc:40-62 | there are as many Puts as first-party data rows |
| `LocalStorageImport.PutsAreTheEntries` | roamux/browser/importer/roamux_origin_storage_import_stage.cc:50-59 | exactly the entries of each origin are put, into that origin's area |
| `LocalStorageImport.DoneOnceWithTheSuccesses` | roamux/browser/importer/roamux_origin_storage_import_stage.cc:35-72 | for any replies, done runs once, at the last one, with the number of successes; with no Puts at once with 0 |
| `LocalStorageImport.OriginStorageImportStage.OnRead` | roamux/browser/importer/roamux_origin_storage_import_stage.cc:35-62 | issues every entry's Put in order; counters stay right even when replies are synchronous |
| `LocalStorageImport.OriginStorageImportStage.OnPutComplete` | roamux/browser/importer/roamux_origin_storage_import_stage.cc:64-72 | one reply keeps the counters in step |
| `GroupDoubleClick.EqualExceptClickedFlipped` | roamux/browser/tabs/group_header_double_click.cc:36-53 | the loop decides the one-way comparison |
| `GroupDoubleClick.MatchesBothWays` | roamux/browser/tabs/group_header_double_click.cc:36-53 | for distinct ids it holds exactly when the id sets are equal and only the clicked state is flipped |
| `GroupDoubleClick.DuplicateIdsBreakTheTest` | roamux/browser/tabs/group_header_double_click.cc:39-51 | with repeated ids the test accepts a different window |
| `GroupDoubleClick.PlanDoubleClickAll` | roamux/browser/tabs/group_header_double_click.cc:55-83 | the loops compute target and toggle list |
| `GroupDoubleClick.PlanListsTheDifferences` | roamux/browser/tabs/group_header_double_click.cc:66-82 | the plan holds exactly the off-target groups once each, the active one last on a collapse pass |
| `GroupDoubleClick.ActivationMovesAtMostOnce` | roamux/browser/tabs/group_header_double_click.h:43-45 | on a collapse pass only the last toggle can move activation, if toggles move it only off the group they toggle |
| `GroupDoubleClick.ToggledAtMostOnce` | roamux/browser/tabs/group_header_double_click.cc:100-112 | a log that follows the plan toggles each planned group at most once and never off the target |
| `GroupDoubleClick.RunDoubleClickAll` | roamux/browser/tabs/group_header_double_click.cc:85-114 | under arbitrary observers the toggles follow the plan; a nested pass changes nothing; when observers move only activation and the order of the groups, every group ends on target |
| `GroupDoubleClick.GestureState.OnLeftPress` | roamux/browser/tabs/group_header_double_click.cc:119-132 | latches exactly on a flagged, timely press in a matching window, else resets |
| `GroupDoubleClick.GestureState.RecordSingleToggle` | roamux/browser/tabs/group_header_double_click.cc:142-159 | records the window before the toggle, or resets |
| `GroupDoubleClick.GestureState.ConsumeOnDoubleClickRelease` | roamux/browser/tabs/group_header_double_click.cc:161-173 | yields the pre-gesture state exactly when latched on this group in a matching window, and always resets |
| `GroupDoubleClick.LeftRelease` | roamux/patches/0075-tab-group-header-double-click-all.patch:173-213 | runs the bulk pass on a consumed flagged release; any other release is recorded and then toggles |
| `GroupDoubleClick.ToggledWindowMatches` | roamux/browser/tabs/group_header_double_click.cc:36-53 | the first toggle, with or without a move of activation, is what press and release expect |
| `GroupDoubleClick.TargetComesFromBeforeTheGesture` | roamux/browser/tabs/group_header_double_click.cc:55-67 | after a match the pass collapses exactly when all groups were expanded before the first click |
| `GroupDoubleClick.DoubleClick` | roamux/browser/tabs/group_header_double_click.cc:85-173 | click, flagged press and flagged release leave the same groups, every one collapsed exactly when all were expanded, wherever activation moves at each click, toggle and gap |
| `GroupDoubleClick.DoubleClickTwice` | roamux/browser/tabs/group_header_double_click.cc:85-173 | the next double click flips the uniform state, with the same freedom for activation |
| `TabUid.TabUidService.MintAndRegister` | roamux/browser/tabs/tab_uid_service.cc:11-17 | releases the tab's earlier uid and registers the minted one |
| `TabUid.TabUidService.AdoptOrRestamp` | roamux/browser/tabs/tab_uid_service.cc:19-31 | registers the restored uid, or a mint when it is malformed or live |
| `TabUid.TabUidService.UnregisterTab` | roamux/browser/tabs/tab_uid_service.cc:33-40 | removes the tab from both maps |
| `TabUid.RegisterKeepsInverse` | roamux/browser/tabs/tab_uid_service.cc:11-40 | registering a uid that is not live keeps the maps inverse and touches no other tab |
| `TabUid.AdoptedIff` | roamux/browser/tabs/tab_uid_service.cc:21-28 | a restored uid is adopted exactly when well formed and live nowhere; otherwise the tab holds the mint, and no other tab notices |
| `TabUid.OwnUidIsRestamped` | roamux/browser/tabs/tab_uid_service.cc:21-28 | in every registry, a tab offered its own live uid gets the mint and its uid is freed |
| `TabUid.PromiseMetIff` | roamux/browser/tabs/tab_uid_service.h:34-38 | what the header says is adopted is adopted exactly when the asking tab does not itself hold the well-formed uid |
| `TabUid.WebContents.MaybeCreateForTab` | roamux/browser/tabs/tab_uid_tab_helper.cc:57-71 | adopts a pending uid or mints, once |
| `TabUid.WebContents.WillDiscardContents` | roamux/browser/tabs/tab_uid_tab_helper.cc:74-92 | frees the uid under the old id and attaches the replacement with it pending |
| `TabUid.WebContents.DestroyHelper` | roamux/browser/tabs/tab_uid_tab_helper.cc:143-147 | unregisters the helper's tab |
| `TabUid.RunKeepsInv` | roamux/browser/tabs/tab_uid_tab_helper.cc:74-147 | in every reachable state the maps are inverse, live uids are well formed, and exactly the attached helpers that have not handed over hold theirs |
| `TabUid.LiveTabsDiffer` | roamux/browser/tabs/tab_uid_service.h:18-23 | no two live tabs ever share a uid |
| `TabUid.CloseThenReopenRecovers` | roamux/browser/tabs/tab_uid_tab_helper.cc:131-147 | close, anything that does not hand the uid out, reopen: the uid is recovered |
| `TabUid.DuplicateDoesNotDisplace` | roamux/browser/tabs/tab_uid_service.cc:22-27 | a newcomer with a live uid is re-stamped and the incumbent keeps its own |
| `TabUid.DiscardKeepsTheUid` | roamux/browser/tabs/tab_uid_tab_helper.cc:74-92 | the replacement contents holds the same uid |
| `TabUid.LateDestructorFreesNothing` | roamux/browser/tabs/tab_uid_tab_helper.cc:83-86 | destroying a discarded contents, whenever it happens, leaves the registry alone |
| `Ed25519Roots.InvRight` | roamux/app/appcast/ed25519_ref.py:34-35 | inv(x) is the inverse of every x not divisible by q |
| `Ed25519Roots.NoZeroDivisors` | roamux/app/appcast/ed25519_ref.py:34-35 | Fermat's theorem leaves no zero divisors |
| `Ed25519Roots.DenominatorInvertible` | roamux/app/appcast/ed25519_ref.py:43 | d*y*y + 1 never vanishes |
| `Ed25519Roots.CurveIffRoot` | roamux/app/appcast/ed25519_ref.py:42-43 | a point is on the curve exactly when x*x is the ratio xrecover roots |
| `Ed25519Roots.CandidateIsRoot` | roamux/app/appcast/ed25519_ref.py:44-46 | the candidate, corrected by I when needed, is a root whenever one exists |
| `Ed25519Roots.XRecoverIsEvenRoot` | roamux/app/appcast/ed25519_ref.py:42-49 | xrecover is even, below q, and on the curve whenever any x is |
| `Ed25519Roots.EvenXIsRecovered` | roamux/app/appcast/ed25519_ref.py:42-49 | every curve point's x is xrecover's result or its opposite, by parity |
| `Ed25519Roots.BasePointOnCurve` | roamux/app/appcast/ed25519_ref.py:52-54 | if any point has y = 4/5, the computed base point is the curve point with even x there |
| `Ed25519.Rfc8032` | roamux/app/appcast/ed25519_ref.py:25-39 | the repository's constants: q = 5 mod 8, below 2^255, and l fits 32 bytes |
| `Ed25519Codec.DecodeThenEncode` | roamux/app/appcast/ed25519_ref.py:115-128 | accepted bytes decode to a curve point that encodes to the same bytes |
| `Ed25519Codec.EncodeThenDecode` | roamux/app/appcast/ed25519_ref.py:78-79 | every curve point survives encoding and decoding |
| `Ed25519Codec.AcceptsExactlyEncodings` | roamux/app/appcast/ed25519_ref.py:115-128 | the decoder accepts exactly the encodings of curve points |
| `LittleEndian.BitOfValue` | roamux/app/appcast/ed25519_ref.py:82-83 | bit i of a byte string is bit i of its little-endian value |
| `LittleEndian.AllBits` | roamux/app/appcast/ed25519_ref.py:92-94 | summing all bits is reading the little-endian value |
| `LittleEndian.BitsOfBitSum` | roamux/app/appcast/ed25519_ref.py:82-88 | a sum over some bits of a string has exactly those bits |
| `LittleEndian.ToThenFrom` | roamux/app/appcast/ed25519_ref.py:74-75 | an integer that fits survives the byte encoding |
| `LittleEndian.FromThenTo` | roamux/app/appcast/ed25519_ref.py:111-112 | bytes survive decoding and encoding |
| `ScalarGroups.SumAdd` | roamux/app/appcast/ed25519_ref.py:64-71 | repeated addition is a homomorphism in the scalar |
| `ScalarGroups.SumMul` | roamux/app/appcast/ed25519_ref.py:64-71 | a multiple of a multiple is the multiple by the product |
| `ScalarGroups.DoubleAndAddIsSum` | roamux/app/appcast/ed25519_ref.py:64-71 | double-and-add is repeated addition in any commutative group |
| `ScalarGroups.SumMod` | roamux/app/appcast/ed25519_ref.py:102 | scalars matter only modulo the order |
| `ScalarGroups.ScalarIsUnique` | roamux/app/appcast/ed25519_ref.py:140-144 | below the order a multiple has one scalar |
| `ScalarGroups.OneResponse` | roamux/app/appcast/ed25519_ref.py:140-144 | exactly one reduced scalar satisfies the verification equation |
| `Ed25519Signatures.ScalarMultIsSum` | roamux/app/appcast/ed25519_ref.py:64-71 | scalarmult on a curve point is repeated Edwards addition and stays on the curve |
| `Ed25519Signatures.HintIsLittleEndian` | roamux/app/appcast/ed25519_ref.py:92-94 | the challenge is the digest's little-endian value |
| `Ed25519Signatures.AcceptsExactlyTheResponse` | roamux/app/appcast/ed25519_ref.py:131-144 | for a key and commitment with known scalars verify accepts exactly S = (r + h*a) mod l |
| `Ed25519Signatures.SignThenVerify` | roamux/app/appcast/ed25519_ref.py:86-103 | a signature verifies under its own public key, for every message and secret |
| `Ed25519Signatures.UnreducedRefused` | roamux/app/appcast/ed25519_ref.py:131-144 | every S that is not below l is refused |
| `Ed25519Signatures.NotMalleable` | roamux/app/appcast/ed25519_ref.py:131-144 | two accepted signatures of one message under one key with the same R are equal |
| `Ed25519Signatures.SecretScalarIsClamped` | roamux/app/appcast/ed25519_ref.py:86-88 | the secret scalar lies between 2^254 and 2^255 and is a multiple of 8 |
| `Ed25519Signatures.SecretScalarBits` | roamux/app/appcast/ed25519_ref.py:86-88 | bit 254 is set, bits 3 to 253 are the digest's, every other bit is clear |
| `Ed25519Signatures.SecretScalarValue` | roamux/app/appcast/ed25519_ref.py:86-88 | the scalar is 2^254 plus the digest's value modulo 2^254 less its value modulo 8 |
| `Ed25519Signatures.SameScalarIff` | roamux/app/appcast/ed25519_ref.py:86-88 | two digests give one scalar exactly when they agree on bits 3 to 253 |
| `Ed25519Signatures.SameKeyIff` | roamux/app/appcast/ed25519_ref.py:86-89 | two secrets share a public key exactly when their scalars agree modulo the order |
| `Ed25519Signatures.PublicKeyIsRfc8032` | roamux/app/appcast/ed25519_ref.py:86-89 | section 5.1.5 of RFC 8032: the encoding of the clamped secret times the base point, as repeated addition |
| `Ed25519Signatures.SignatureIsRfc8032` | roamux/app/appcast/ed25519_ref.py:97-103 | section 5.1.6 of RFC 8032: R = r*B with r read from H(prefix, m), and S = (r + H(R, pk, m) * secret) mod l |
| `Ed25519Signatures.VerifyIsRfc8032` | roamux/app/appcast/ed25519_ref.py:131-144 | section 5.1.7 of RFC 8032, for all bytes: accepted exactly when both points decode, S < l and S*B = R + H(R, pk, m)*A |
| `Ed25519Addition.CrossIsNoUnit` | roamux/app/appcast/ed25519_ref.py:57-61 | the denominators of the addition formula never vanish on curve points |
| `Ed25519Addition.EdwardsAdds` | roamux/app/appcast/ed25519_ref.py:57-61 | edwards returns the one reduced solution of the addition law |
| `Ed25519Addition.EdwardsCommutes` | roamux/app/appcast/ed25519_ref.py:57-61 | addition of curve points is commutative |
| `Ed25519Addition.EdwardsIdentity` | roamux/app/appcast/ed25519_ref.py:57-61 | (0, 1) is the identity |

## Left out

- SQL text, failed transactions, schema migration and database reset: the store is a sequence of visits and a map of sidecar rows, and its transactions commit.
- The point lookups `GetTabState` and `RowCount`, and the journal's volatile live sets: nothing modelled reads them.
- `ReadTabStates` returns its rows ordered by key; the model lets a reply's rows be merged in any order, which the result does not depend on.
- Feature flags of the tab-visit and refresh parts, a missing journal service and off-the-record profiles: one early return each. The import coordinator's disabled path is modelled.
- Windows, tab strips, activation and focus: a UI step sees the set of live uids, whether a reopen target exists and whether the reopen function succeeds. Observers that an activation re-enters while a gesture is active are suppressed by the bridge and change no modelled state.
- The visit filter over URLs: a URL carries whether it is recordable.
- The 900 ms debounce: the timer is armed or not, and an armed timer may fire at any step.
- Unbounded time: clock values, counts and ids are mathematical integers; only the store's timestamps have their 64-bit range written out.
- Destruction of a scheduler or a run from inside its own callback, weak pointers and task posting themselves: the drop of posted settles at the end of a run is modelled, object lifetime is not.
- The dialog queue, audibility and eligibility of a tab: answers of the environment to `ShouldDefer` and `StartItem`.
- The command's map holds the value of each run's scheduler rather than a scheduler object, so sharing of one run between browsers is not expressible.
- The staging directory's own name inside IndexedDB/, a crash between two published directories, and deletions that fail: staging is a separate map, and deletions succeed.
- The key order in which origin groups are visited: the model visits them in every order.
- Double file-name extensions such as `.tar.gz` have no effect on the three extensions that are tested for and are not modelled.
- `IndexedDbImport.FileSystem.Interfere`: the other actor adds names and never alters or removes what is there.
- Keychain, SQLite, LevelDB and Mojo calls of the import stages, and the human-readable reasons in the report: the stages' results are replies of the environment.
- `DeserializeForLocalStorage` and the first-party test: an arbitrary function from bytes to an optional storage key.
- The header views' drags, right presses and open editors, which only reset the gesture, and which tab the strip activates when a group collapses: activation moves freely in the model, and `GroupDoubleClick.ActivationMovesAtMostOnce` takes as its hypothesis that a toggle moves it only off the group it toggles.
- The random uid: a mint is any well-formed uid that was never registered, so collisions are excluded.
- Session extra data, off-the-record stamping and a replacement contents that already carries a helper.
- SHA-512 is an arbitrary function to 64 bytes; that q is prime, the Edwards group law and the order of the base point are hypotheses.
- Small-order points are accepted by the verifier, as in the source, and `Ed25519Signatures.AcceptsExactlyTheResponse` speaks of commitments and keys with a known scalar; `Ed25519Signatures.NotMalleable` covers every accepted one.
- Views, menus, dialogs, the update state machine, placement and pinning tables, profile and sign-in gates, the proxy builder and the release scripts: small finite tables or wiring whose claims follow from one branch.
