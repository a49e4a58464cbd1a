# Verified models of the Marvex runtime's stateful components

This project models, in Dafny 4.11, the parts of the repository that keep state over long runs
or make allocation decisions, and proves what they guarantee on all inputs and over all runs.
`dafny verify dfyconfig.toml` checks everything.

| file | component |
|---|---|
| `Sequences.dfy`, `Text.dfy` | first-occurrence de-duplication, last-n windows; `strip` and ASCII lower case |
| `SyncState.dfy`, `Scheduler.dfy` | auto-fetch sync state and the scheduler tick with its key/value store |
| `ContextPack.dfy` | the greedy context pack builder |
| `Providers.dfy`, `ProviderSnapshot.dfy`, `ProviderControl.dfy`, `ProviderRuns.dfy`, `ProviderRestore.dfy`, `ProviderRestart.dfy` | provider rows and effort normaliser; file format; operations; run invariant; save/load; restarts |
| `StateStream.dfy` | the state event stream as interleaved steps |
| `BrowserSession.dfy`, `Cookies.dfy` | leases, claims, sliding sessions; cookie printer and parser |
| `Approvals.dfy`, `Execution.dfy` | approval store; execution requests; their combined protocol |
| `LoopGuard.dfy` | agent loop state, both guards, and a driver |
| `KeyScreen.dfy`, `KeySpelling.dfy` | key normaliser, payload screening, structured-output consumer; which key a spelling denotes |
| `ToolSelection.dfy`, `WebFallback.dfy` | tool selection and web-provider fallback with their retry loops |

Objects that the source updates in place are classes whose methods are proved against a step
function; the run theorems are about that function.  Clock readings, tokens, discovered models,
model metadata, fetch results and the success of store writes are parameters, so the theorems hold
for every value of them.  URL inspection and the vision hint are function-valued fields of `Rules`;
nothing is assumed about them except, where stated, that the empty string is not a Google URL.

## Where the code does less than its own words

Each of these is a lemma with the exact condition; where the code fails it, a lemma gives such a run.

- The daily budget counts a day in the zone of each reading. It holds while the offset never drops by more
  than the interval in force from one sync to the next (`SyncState.DailyBudgetHolds`,
  `Scheduler.TicksKeepDailyBudget`); a daylight saving change under an hourly interval is such a drop. Every
  run over a range of offsets and a least interval keeps its budgets if and only if the range is no wider
  than that interval, or than two intervals less a day when it is longer than a day
  (`SyncState.BudgetsHoldIffOffsetsClose`); in a wider range, a run returns to a date whose counter has
  started again. With any offsets the bound holds per uninterrupted block of one date (`SyncState.BlockWithinBudget`).
- Budget and interval count saved syncs. A fetch that raises and a sync whose store write fails leave no
  trace, and the same call fetches again exactly after one of these (`Scheduler.RefetchIffNoTrace`); the
  fetches of a day are its saved syncs plus those (`Scheduler.FetchesBalance`).
- The provider minimum is not a floor for a manual-only source with a minimum above 2^31 s
  (`SyncState.ProviderMinimumIsFloor`), and a manual-only source still syncs once
  (`Scheduler.FirstTickSyncs`, `SyncState.ManualOnlySyncsAtMostOnce`).
- Two connections share a stored state exactly when their ids split the same joined key at two of its dots
  (`Scheduler.SharedKeysSplitElsewhere`); a connection shares its state with some other one exactly when one
  of its ids contains a dot (`Scheduler.SharedKeys`).
- `set_connection` refuses a bad mode after writing the base URL, and takes a mode padded with whitespace
  past the LiteLLM rule; `ProviderRestore.ConnectionKeepsProxyForm` gives the exact condition. After a
  mode refused so late the file lags behind memory, until the next accepted call, exactly when the URL left
  behind differs from the saved one (`ProviderRestore.FileLagsIffUrlUnsaved`), and a restart shows exactly
  that (`ProviderRestart.RestartIsVisibleIffFileLags`).
- A model id set with surrounding white space is read back trimmed, and is then listed only if its trimmed
  form was (`ProviderRestart.ReloadListsActiveModelIff`).
- Base URLs from the environment are not checked as the others are (`ProviderRuns.RunUrlsAreChecked`).
- A decision with a reason the response model rejects removes the pending request and records nothing
  (`Approvals.RejectedReasonLosesRequest`).
- The loop guard counts completed steps, the validator also recorded ones (`LoopGuard.AdvanceIsValid`,
  `LoopGuard.UnrecordedStepsOverflow`).
- The last frame of a settled stream shows the current snapshot exactly when it came from a timeout, or the
  publisher that notified last is the one that stored last or had stored an equal event
  (`StateStream.SettledStreamIsCurrentIff`). Overlapping publishers can leave an older event there, until the
  next timeout (`StateStream.OverlappingPublishersGoStale`, `StateStream.TimeoutMakesCurrent`).
- A validation succeeds exactly when the session is within its lifetime and has not been seen past it since
  its mint (`BrowserSession.ValidationFollowsFullHistory`). The second part matters only when the clock goes
  back (`BrowserSession.ValidationFollowsHistory`, `BrowserSession.BackwardClockShowsEviction`).
- The fallback walk ends exactly when no provider behind the failed one occurred in the chain before
  (`WebFallback.WalkEndsIffFreshAhead`).
- Key spellings are read word by word (`KeySpelling.SpellingIsRead`), but the word boundary is a capital behind
  a lower-case letter or digit: a single-letter word inside a camel-cased key joins the next one
  (`KeySpelling.CamelCaseIsReadIff`), and capitals behind a digit split a word (`KeySpelling.CasesOfAWord`).
- The key screening does not look into Python tuples, which `json.dumps` takes and writes as lists. A payload
  is accepted exactly when every forbidden key lies inside a tuple (`KeyScreen.AcceptsIffNoForbiddenKey`,
  `KeyScreen.TupleHidesKey`), and free of them exactly when its written form is accepted
  (`KeyScreen.CleanIffWrittenFormAccepted`).

## Model

| member | source | states |
|---|---|---|
| `Sequences.Fresh` | packages/connector_runtime/auto_fetch_scheduler.py:80-82 | inserting a batch into an insertion-ordered dictionary adds exactly its unseen members, each once |
| `Sequences.DedupOfAppend` | packages/connector_runtime/auto_fetch_scheduler.py:80-82 | de-duplicating a concatenation keeps the de-duplicated head and appends what is new |
| `Sequences.DedupFromFront` | packages/control_plane_api/providers.py:1067-1075 | the order is that of first occurrences: head first, then the rest without it |
| `Text.AsciiSpaces` | packages/control_plane_api/providers.py:1067-1075 | which ASCII characters are white space |
| `Text.StripIsTheMiddle` | packages/control_plane_api/providers.py:1067-1075 | stripping takes white space off the two ends and nothing else |
| `SyncState.CursorIsLastOffered` | packages/connector_runtime/auto_fetch_scheduler.py:88 | over any run the cursor is the last non-empty one offered |
| `SyncState.CountersMeanTrailingBlock` | packages/connector_runtime/auto_fetch_scheduler.py:74-77 | after any run in any zones the stored counter is the length of the last block of syncs sharing a date |
| `SyncState.GuardsFollowHistory` | packages/connector_runtime/auto_fetch_scheduler.py:94-103 | any zones: the budget refuses iff the last block of syncs carries today's date and is as long as the budget, the interval iff less has passed since the last sync; both else let it through |
| `SyncState.BlockWithinBudget` | packages/connector_runtime/auto_fetch_scheduler.py:66-98 | any mix of zones: no uninterrupted block of one date exceeds the budget in force at its last sync |
| `SyncState.SyncTimesIncrease` | packages/connector_runtime/auto_fetch_scheduler.py:100-103 | the interval guard alone makes sync times increase by the interval, whatever the clock does between |
| `SyncState.DailyBudgetHolds` | packages/connector_runtime/auto_fetch_scheduler.py:66-103 | offsets dropping by at most the interval: at each sync the day's syncs so far are within the budget that sync ran under |
| `SyncState.DailyBudgetBoundsEveryDay` | packages/connector_runtime/auto_fetch_scheduler.py:66-103 | the same offsets: every calendar day of every gated run has at most the largest budget of syncs |
| `SyncState.NoReturnKeepsBudgets` | packages/connector_runtime/auto_fetch_scheduler.py:66-98 | every gated run that never comes back to a date keeps its budgets, whatever the zones |
| `SyncState.BudgetsHoldIffOffsetsClose` | packages/connector_runtime/auto_fetch_scheduler.py:66-103 | every gated run over a range of offsets and intervals of at least a given one keeps its budgets iff the range is within the allowance of that interval |
| `SyncState.RateBound` | packages/connector_runtime/auto_fetch_scheduler.py:100-117 | any closed window holds at most span/gap + 1 syncs |
| `SyncState.ManualOnlySyncsAtMostOnce` | packages/connector_runtime/auto_fetch_scheduler.py:174-180 | manual-only: at most one sync in any span shorter than 2^31 seconds |
| `SyncState.ProviderMinimumIsFloor` | packages/connector_runtime/auto_fetch_scheduler.py:174-180 | the provider minimum is a floor iff not (manual-only and minimum above 2^31) |
| `SyncState.NamedIntervalsAreTheirSpans` | packages/connector_runtime/auto_fetch_scheduler.py:160-180 | hour, day, week, 20 minutes or 2^31 s, unless the provider's minimum is longer |
| `SyncState.WindowIsFifo` | packages/connector_runtime/auto_fetch_scheduler.py:79-82 | the dedup window is duplicate-free, at most 200 long, and the last 200 entries of the log of new hashes |
| `SyncState.WindowIsPlainDedup` | packages/connector_runtime/auto_fetch_scheduler.py:79-82 | the window equals the plain dedup of all hashes iff at most 200 distinct ones were offered |
| `SyncState.EvictionNeedsFullWindow` | packages/connector_runtime/auto_fetch_scheduler.py:79-82 | a logged hash is gone only behind 200 later, pairwise distinct other entries |
| `SyncState.SurvivalIsByPlace` | packages/connector_runtime/auto_fetch_scheduler.py:79-82 | after any run, an entry survives the next sync iff its place leaves it among the last 200 behind that sync's new hashes; being offered again does not matter |
| `Scheduler.CanonicalizePage` | packages/adapters/connectors/scheduler.py:117-151 | the loop returns the page's ids the window does not know |
| `Scheduler.UnknownKeepsOrder` | packages/adapters/connectors/scheduler.py:134-149 | every such position is taken, behind those before it, and no other |
| `Scheduler.AutoFetchScheduler.RegisterConfig` | packages/adapters/connectors/scheduler.py:187-188 | a configuration replaces the one of its connector |
| `Scheduler.AutoFetchScheduler.Tick` | packages/adapters/connectors/scheduler.py:190-288 | the tick's status, store effect and ingested documents, with the guards in their order |
| `Scheduler.TickAnswersFromHistory` | packages/adapters/connectors/scheduler.py:190-260 | after any run of ticks the next status is the first that applies: disabled, budget spent, too early, fetch raised, synced, each read off the policy and the persisted syncs of the key |
| `Scheduler.DocumentsAreNew` | packages/adapters/connectors/scheduler.py:134-149 | handed to ingestion are the ids of the page that are not among the last 200 logged for the key |
| `Scheduler.IngestedIsLogged` | packages/adapters/connectors/scheduler.py:261-275 | and a persisted tick logs them |
| `Scheduler.StoreStep` | packages/adapters/connectors/scheduler.py:190-288 | a tick changes at most its own key, by one sync both guards allowed |
| `Scheduler.StoreFollowsGatedRun` | packages/adapters/connectors/scheduler.py:100-109 | over any run of ticks the state under a key is that of a gated run of exactly its persisted syncs |
| `Scheduler.TicksKeepDailyBudget` | packages/adapters/connectors/scheduler.py:219-274 | offsets dropping by at most the interval from one persisted sync to the next: the persisted syncs of a key on a day stay within its budget over any run of ticks |
| `Scheduler.PersistedOffsetsWithin` | packages/adapters/connectors/scheduler.py:219-274 | that holds when it does between any two ticks of the key |
| `Scheduler.TicksKeepRate` | packages/adapters/connectors/scheduler.py:230-237 | the rate bound over any run of ticks |
| `Scheduler.ReingestionNeedsFullWindow` | packages/adapters/connectors/scheduler.py:134-149 | a logged document is ingested again only after 200 distinct other ids |
| `Scheduler.FirstTickSyncs` | packages/adapters/connectors/scheduler.py:205-247 | no interval holds back a first sync |
| `Scheduler.RefetchIffNoTrace` | packages/adapters/connectors/scheduler.py:238-274 | the same call at the same reading fetches again iff the first fetch raised or its write failed |
| `Scheduler.FetchesBalance` | packages/adapters/connectors/scheduler.py:238-274 | over any run the fetches of a key on a day are its persisted syncs of that day plus the fetches that left no trace |
| `Scheduler.FetchesWithinBudgetAndUncounted` | packages/adapters/connectors/scheduler.py:219-274 | for the same offsets the fetches of a day exceed the budget by at most those |
| `Scheduler.SharedKeysSplitElsewhere` | packages/adapters/connectors/scheduler.py:70-71 | two pairs of ids have the same key iff they are equal or split it at different dots |
| `Scheduler.SharedKeys` | packages/adapters/connectors/scheduler.py:70-71 | some other pair of ids has the same key iff one of the ids contains a dot |
| `ContextPack.BuildContextPack` | packages/context_runtime/models.py:179-201 | the loop builds the greedy selection, its token sum and the exclusions, and the budget validator never fires |
| `ContextPack.PackIsLexicographicallyBest` | packages/context_runtime/models.py:192-198 | at the first difference from any permitted selection the pack has the candidate |
| `ContextPack.PackIsTheOnlyBest` | packages/context_runtime/models.py:192-215 | the pack is feasible and the only selection with that property |
| `ContextPack.GreedyPrefix` | packages/context_runtime/models.py:192-198 | the choice on a prefix is the prefix of the choice |
| `ContextPack.PackPrefix` | packages/context_runtime/models.py:192-198 | included and excluded of a prefix are prefixes of those of the whole |
| `ContextPack.ReasonsDescribeFinalPack` | packages/context_runtime/models.py:204-215 | each reason read off the finished pack: a limit exclusion means full, a budget exclusion still does not fit |
| `ContextPack.ReasonIsFirstFailure` | packages/context_runtime/models.py:204-215 | a candidate is refused for the first of kind, limit, intent and budget that fails on the pack so far |
| `ContextPack.TagsDecideIntent` | packages/context_runtime/models.py:209-212 | untagged candidates meet every intent, tagged ones theirs, browser use by default only its own |
| `ContextPack.PackIsMaximal` | packages/context_runtime/models.py:192-215 | no refused candidate can be added to the finished pack |
| `ContextPack.PackLosesNothing` | packages/context_runtime/models.py:193-201 | included and excluded merge back to the input in order, each exclusion with its reason |
| `Providers.Dedupe` | packages/control_plane_api/providers.py:1067-1075 | the loop with its seen set is strip, drop blanks, first occurrences |
| `Providers.NormalizeEffortFixesCanonical` | packages/control_plane_api/providers.py:1044-1052 | canonical efforts and the empty one are left alone |
| `Providers.EffortsAreRead` | packages/control_plane_api/providers.py:1044-1052 | which texts denote which effort: case and space do not matter, three levels have a second name |
| `Providers.EffortOptionsOneMore` | packages/control_plane_api/providers.py:1055-1064 | the option list grows by the efforts not listed yet, in order |
| `Providers.EffortOptionsIdempotent` | packages/control_plane_api/providers.py:1055-1064 | normalising an option list twice is normalising it once |
| `Providers.NormalizedEffortIsListed` | packages/control_plane_api/providers.py:308-331 | the effort is listed and canonical, or empty exactly when nothing is listed |
| `Providers.NormalizedEffortIsPreferred` | packages/control_plane_api/providers.py:308-331 | it is the first listed one of the row's own, the model's default and medium, else the head of the list |
| `Providers.NormalizedMetadataIsExact` | packages/control_plane_api/providers.py:308-331 | only the active model's entry changes, to its normal form |
| `Providers.NormalizedIdempotent` | packages/control_plane_api/providers.py:308-331 | the row normaliser is idempotent |
| `ProviderControl.AppendMissing` | packages/control_plane_api/providers.py:201-203 | the loop appends the models not yet listed |
| `ProviderControl.InMemoryProviderControl.constructor` | packages/control_plane_api/providers.py:80-158 | starts from the rows and the loaded file |
| `ProviderControl.InMemoryProviderControl.Commit` | packages/control_plane_api/providers.py:339-345 | stores the row and writes the catalogue |
| `ProviderControl.InMemoryProviderControl.SetActiveProvider` | packages/control_plane_api/providers.py:170-175 | activates and configures a known row, refuses an unknown id; the file holds the new catalogue iff accepted |
| `ProviderControl.InMemoryProviderControl.SetActiveModel` | packages/control_plane_api/providers.py:177-184 | sets and lists the model, renormalises metadata and effort, saves |
| `ProviderControl.InMemoryProviderControl.SetReasoningEffort` | packages/control_plane_api/providers.py:186-195 | sets the normalised effort and saves, or refuses one the active model does not list and changes nothing |
| `ProviderControl.InMemoryProviderControl.SetMultiModels` | packages/control_plane_api/providers.py:197-205 | stores the cleaned list, appends what is not listed yet, saves |
| `ProviderControl.InMemoryProviderControl.SetConnection` | packages/control_plane_api/providers.py:207-233 | sets URL and mode and saves, or refuses: a bad URL changes nothing, a bad mode leaves the URL written and unsaved |
| `ProviderControl.InMemoryProviderControl.SetAutomationModel` | packages/control_plane_api/providers.py:235-262 | sets and lists the trimmed model with its vision capability and policy and saves, or refuses a blank one |
| `ProviderControl.InMemoryProviderControl.RefreshModels` | packages/control_plane_api/providers.py:290-306 | merges discovered models in front, replaces metadata, keeps a listed active model, renormalises; an empty discovery only clears the health flag |
| `ProviderRuns.EditKeepsInvariant` | packages/control_plane_api/providers.py:170-331 | every operation, accepted or refused, keeps the row invariant |
| `ProviderRuns.RunKeepsInvariant` | packages/control_plane_api/providers.py:170-331 | over every run the active id names a row, each row lists every model it refers to exactly once, and its mode is a known one |
| `ProviderRuns.RunKeepsEffortListed` | packages/control_plane_api/providers.py:308-331 | over every run the effort is one the active model lists, or empty exactly when it lists none |
| `ProviderRuns.RunUrlsAreChecked` | packages/control_plane_api/providers.py:207-233 | over every run from any rows a base URL is the starting one or trimmed, safe and no Google URL on LiteLLM |
| `ProviderRuns.RefusalsChangeAtMostTheUrl` | packages/control_plane_api/providers.py:223-228 | a refused operation changes nothing but the URL of a connection refused for its mode |
| `ProviderRuns.OperationsAreLocal` | packages/control_plane_api/providers.py:170-306 | an unknown id is refused; any other operation touches the row it names, and the active id iff that is what it sets |
| `ProviderRuns.EditLeavesRest` | packages/control_plane_api/providers.py:170-306 | the fields each operation can change; all others stay |
| `ProviderRuns.RefusalsAreExact` | packages/control_plane_api/providers.py:186-262 | when each operation is refused, and as what |
| `ProviderRuns.AcceptedEditTakesEffect` | packages/control_plane_api/providers.py:170-306 | what each accepted operation achieves, the LiteLLM mode and the vision value included; listed models keep their places, discovered ones come first |
| `ProviderRuns.RefreshTakesEffect` | packages/control_plane_api/providers.py:290-306 | a refresh lists discovered models first and the others behind, replaces the metadata, and keeps the active model unless it is no longer listed |
| `ProviderRuns.RefreshKeepsActiveModel` | packages/control_plane_api/providers.py:299-303 | a trimmed active model of a coherent row is always kept |
| `ProviderRuns.RunKeepsActiveModel` | packages/control_plane_api/providers.py:170-306 | over every run only `set_active_model` on its row changes such an active model |
| `ProviderRestore.RowIsRestored` | packages/control_plane_api/providers.py:347-462 | a saved row is restored in every persisted field iff six facts about the row and its base hold |
| `ProviderRestore.AnyRecordIsRead` | packages/control_plane_api/providers.py:376-440 | what any record, complete or not, does to each field of its row |
| `ProviderRestore.AnyConnectionIsRead` | packages/control_plane_api/providers.py:382-393 | unsafe URLs and unknown modes are passed over, LiteLLM is put into its normal form |
| `ProviderRestore.AnyFileIsRead` | packages/control_plane_api/providers.py:368-375 | rows without a record stay, a row with one is read from it, records of unknown ids do nothing |
| `ProviderRestore.AnyActiveIsRead` | packages/control_plane_api/providers.py:361-363 | the active id is taken from the file iff it names a row |
| `ProviderRestore.CatalogueIsRestored` | packages/control_plane_api/providers.py:347-462 | a saved catalogue is restored iff each of its rows is restorable |
| `ProviderRestore.ConnectionKeepsProxyForm` | packages/control_plane_api/providers.py:214-233 | a connection change keeps the LiteLLM normal form iff its mode is not refused late or hidden behind whitespace |
| `ProviderRestore.SavedRunIsRestored` | packages/control_plane_api/providers.py:347-462 | any run with trimmed model ids and such connection changes is restored completely |
| `ProviderRestore.DefaultRunIsRestored` | packages/control_plane_api/providers.py:90-156 | the same for every such run from the default rows, unchecked environment URLs included |
| `ProviderRestore.MemoryIsSavedPlusUnsaved` | packages/control_plane_api/providers.py:223-233 | over every run memory is the saved state with the URLs of late refusals since the last accepted call written over it |
| `ProviderRestore.FileLagsIffUrlUnsaved` | packages/control_plane_api/providers.py:223-233 | the file differs from memory iff such a URL differs from the saved one of its row |
| `ProviderRestore.RefusedModeIsNotRestored` | packages/control_plane_api/providers.py:223-228 | a refused mode on the LiteLLM row leaves a state that saving and loading does not restore |
| `ProviderRestart.EditIgnoresUnwritten` | packages/control_plane_api/providers.py:170-331 | no operation looks at the two fields the file does not keep |
| `ProviderRestart.ReloadShowsSavedIffRestorable` | packages/control_plane_api/providers.py:347-462 | loading a saved catalogue shows it again in all the file keeps iff its rows are restorable |
| `ProviderRestart.RestartsDropRefusedCalls` | packages/control_plane_api/providers.py:120-156 | restarts anywhere in a run, restorable when they come: memory is that of the run without them and without the calls refused before each since the last accepted one |
| `ProviderRestart.SavedOperationsDecide` | packages/control_plane_api/providers.py:120-156 | it is enough that the saved operations keep rows restorable |
| `ProviderRestart.RestartsAreInvisible` | packages/control_plane_api/providers.py:120-156 | if no restart comes while the file lags, memory is that of the run without restarts |
| `ProviderRestart.RestartIsVisibleIffFileLags` | packages/control_plane_api/providers.py:223-228 | one more restart changes what memory shows iff a late refusal since the last accepted call left a URL other than the saved one |
| `ProviderRestart.FileStaysCurrent` | packages/control_plane_api/providers.py:223-233 | without a late refusal nothing is unsaved and no restart comes while the file lags |
| `ProviderRestart.InvariantThroughRestarts` | packages/control_plane_api/providers.py:120-331 | trimmed model ids: over every run, whatever is refused and wherever restarts stand, memory and file keep the invariant and list only clean models |
| `ProviderRestart.DefaultKeepsInvariant` | packages/control_plane_api/providers.py:90-156 | the same from the default rows, for any environment URLs |
| `ProviderRestart.ReloadListsActiveModelIff` | packages/control_plane_api/providers.py:376-398 | after setting a model and reloading, the active model is listed iff it was blank, trimmed, or its trimmed form listed |
| `StateStream.DirectIsNotifyThenCallback` | packages/control_plane_api/state.py:81-85 | the direct stream is the two-stage one with its callback run at once |
| `StateStream.Stream.Publish` | packages/state_bus/bus.py:60-64 | storing the snapshot is one step |
| `StateStream.Stream.OnEvent` | packages/control_plane_api/asgi_app.py:111-115 | notification schedules a callback or is refused by a closed loop |
| `StateStream.Stream.Enqueue` | packages/control_plane_api/asgi_app.py:106-109 | the callback enqueues, or drops on a full queue |
| `StateStream.Stream.NextFrame` | packages/control_plane_api/asgi_app.py:121-129 | the first frame is the snapshot; then one turn of the loop sends the head of the queue or the snapshot |
| `StateStream.Stream.Serve` | packages/control_plane_api/asgi_app.py:95-132 | any schedule of these steps is a run of the step function |
| `StateStream.StreamConserves` | packages/control_plane_api/asgi_app.py:103-129 | every interleaving: deliveries follow the log at increasing positions, the queue is bounded, nothing is unaccounted |
| `StateStream.LosslessIffNothingLost` | packages/control_plane_api/asgi_app.py:103-129 | delivered, queued and pending are the whole log iff nothing was dropped or refused |
| `StateStream.LosslessIffAlwaysRoom` | packages/control_plane_api/asgi_app.py:106-115 | the stream is lossless iff every callback met room and the loop was open at every notification |
| `StateStream.UnreadQueueTakes128` | packages/control_plane_api/asgi_app.py:103-109 | while nobody reads, 128 entries are queued and only later ones dropped |
| `StateStream.FramesAreDeliveries` | packages/control_plane_api/asgi_app.py:121-129 | the first frame is a snapshot and the event frames sent are exactly the deliveries |
| `StateStream.SettledStreamEndsOnLastNotified` | packages/control_plane_api/asgi_app.py:103-129 | a settled stream whose last notification was not lost ends on it |
| `StateStream.SettledStreamEndsOnFrame` | packages/control_plane_api/asgi_app.py:121-130 | its last frame shows the snapshot if it came from a timeout, else the last notification |
| `StateStream.SettledStreamIsCurrentIff` | packages/state_bus/bus.py:60-70 | that frame shows the snapshot iff it came from a timeout, or the last notifier is the last storer or had stored an equal event |
| `StateStream.LosslessStreamIsCurrentIff` | packages/state_bus/bus.py:60-70 | the last frame of a settled lossless stream shows the snapshot iff it came from a timeout or log and store end on the same event |
| `StateStream.TimeoutMakesCurrent` | packages/control_plane_api/asgi_app.py:129-130 | any stream shows the current snapshot right after a timeout, which delivers nothing |
| `StateStream.SettledStreamIsCurrent` | packages/state_bus/bus.py:60-70 | publishers that take turns always leave a settled stream current |
| `StateStream.OverlappingPublishersGoStale` | packages/state_bus/bus.py:60-70 | two publishers overlapping on different events can settle it on the older one, shown until the next timeout |
| `Cookies.HeaderIsRead` | packages/control_plane_api/browser_session.py:71-76 | in a cookie-pair list (section 4.2.1 of RFC 6265) the first non-empty pair of the name is returned |
| `Cookies.AnyHeaderIsRead` | packages/control_plane_api/browser_session.py:71-76 | for every header the value is that of the first part that carries the name, or there is none |
| `Cookies.SplitIsTheParts` | packages/control_plane_api/browser_session.py:72 | joining the parts gives the header back, and no part has a semicolon |
| `Cookies.SplitOfJoined` | packages/control_plane_api/browser_session.py:72 | splitting joined parts without semicolons gives them back |
| `Cookies.SessionCookieRoundTrip` | packages/control_plane_api/browser_session.py:63-76 | parsing inverts printing iff the session is not empty, has no semicolon and no trailing whitespace |
| `BrowserSession.BrowserSessionManager.CreateLease` | packages/control_plane_api/browser_session.py:29-31 | issues a claim that expires after the claim lifetime |
| `BrowserSession.BrowserSessionManager.Claim` | packages/control_plane_api/browser_session.py:39-47 | redeems a claim: consumed by any attempt, minting only in time |
| `BrowserSession.BrowserSessionManager.ValidateCookieHeader` | packages/control_plane_api/browser_session.py:49-61 | validates and slides the session found in the header, evicting it when expired |
| `BrowserSession.RedemptionFollowsHistory` | packages/control_plane_api/browser_session.py:39-47 | a redemption mints iff its lease is outstanding and in time, for any clock and any tokens |
| `BrowserSession.ValidationFollowsFullHistory` | packages/control_plane_api/browser_session.py:49-61 | any clock and tokens: validation succeeds iff within the lifetime of the mint or last success and not seen past it since the mint |
| `BrowserSession.ValidationFollowsHistory` | packages/control_plane_api/browser_session.py:49-61 | clock not going back: validation succeeds iff within the lifetime of the mint or last success |
| `BrowserSession.ValidationNeverExceedsHistory` | packages/control_plane_api/browser_session.py:49-61 | any clock: validation never succeeds beyond that |
| `BrowserSession.BackwardClockShowsEviction` | packages/control_plane_api/browser_session.py:57-59 | a run in which the clock goes back and a session within its lifetime is gone |
| `BrowserSession.AttemptConsumesClaim` | packages/control_plane_api/browser_session.py:42-44 | after any attempt a claim mints only under a new lease, within its lifetime |
| `Approvals.InMemoryApprovalStore.constructor` | packages/control_plane_api/approvals.py:9-12 | opens with the given requests pending |
| `Approvals.InMemoryApprovalStore.AddPending` | packages/control_plane_api/approvals.py:18-19 | files a request under its id |
| `Approvals.InMemoryApprovalStore.DecideRequest` | packages/control_plane_api/approvals.py:42-77 | takes the request off the table, then records the decision in both tables or fails on its reason |
| `Approvals.InMemoryApprovalStore.DeniedCount` | packages/control_plane_api/approvals.py:36-40 | approved and denied counts add up to the decisions held |
| `Approvals.RunKeepsTablesEqual` | packages/control_plane_api/approvals.py:36-77 | every run: both decision tables have the same keys and agree; approvals and denials add up |
| `Approvals.PendingIsWaiting` | packages/control_plane_api/approvals.py:9-19 | over every run pending under an id is what was added last and not asked about since |
| `Approvals.DecisionIsLastOne` | packages/control_plane_api/approvals.py:51-77 | decided under an id is what the last step decided that met a pending request with an accepted reason; adding the id again does not change it |
| `Approvals.DecisionRecordsChoice` | packages/control_plane_api/approvals.py:62-76 | a recorded decision is about the pending request, keeps the reason, and its id tells the three choices apart |
| `Approvals.DecisionStands` | packages/control_plane_api/approvals.py:59-61 | a decision stands, and deciding again does nothing, until its id is added again |
| `Approvals.PendingAndDecidedPartition` | packages/control_plane_api/approvals.py:18-77 | distinct ids and accepted reasons: pending and decided partition the ids added |
| `Approvals.CountsAddUp` | packages/control_plane_api/approvals.py:18-40 | then pending, approved and denied counts add up to the number of requests added |
| `Approvals.RejectedReasonLosesRequest` | packages/control_plane_api/approvals.py:59-74 | a decision is recorded iff the reason is accepted; the request is gone either way |
| `Execution.DecisionsAreJustified` | packages/control_plane_api/approvals.py:33-77 | every approval held was given by an approve step on a request pending for that capability |
| `Execution.ExecutedRequestsAreAuthorized` | packages/capability_runtime/requests.py:24-37 | every run: each executed request was built at a step with an approved permission for its capability, and if a human is needed a step before that one approved a request for it |
| `Execution.UnapprovedExecutionsAreLowImpact` | packages/capability_runtime/proposals.py:9-33 | over every run, what was executed without an earlier approval of its capability has at most local writes and network access, and a mode that asks for none |
| `Execution.LowImpactNeedsNoApproval` | packages/capability_runtime/requests.py:30-34 | and that much is accepted without any approval |
| `Execution.ValidationIsFirstFailure` | packages/capability_runtime/requests.py:24-37 | the validator answers with the first of its five checks that fails |
| `Execution.ApprovalServesEveryTurn` | packages/capability_runtime/requests.py:30-34 | one approved decision under an id executes every later draft for its capability that has permission and executing mode |
| `Execution.AcceptanceIgnoresTurn` | packages/capability_runtime/requests.py:24-37 | acceptance does not look at ids, traces or turns |
| `LoopGuard.Drive` | packages/capability_runtime/loop.py:351-365 | a driver asking the guard first stops within the remaining steps and passes only valid states |
| `LoopGuard.AppendedStepIsValidIff` | packages/capability_runtime/loop.py:174-181 | after the guard passes, one more step is valid iff it carries the loop's trace and turn and a recorded slot is left |
| `LoopGuard.AdvanceIsValid` | packages/capability_runtime/loop.py:174-181 | so a step of the loop itself is valid iff a recorded slot is left |
| `LoopGuard.QuietLoopTakesAllSteps` | packages/capability_runtime/loop.py:159-163 | a new loop is valid for 1 to 50 steps and 1 to 20 failures, and left alone takes exactly its steps |
| `LoopGuard.LimitsComeFirst` | packages/capability_runtime/loop.py:351-357 | a reached limit decides before the reported reason |
| `LoopGuard.ExplicitReasonComesFirst` | packages/capability_runtime/loop.py:25-33 | in the second guard the explicit reason decides before both limits |
| `LoopGuard.UnrecordedStepsOverflow` | packages/capability_runtime/loop.py:174-181 | more recorded than completed steps: the driver reaches an invalid state |
| `LoopGuard.GuardsAgreeToStop` | packages/capability_runtime/loop.py:25-37 | the two guards agree whether to stop, and on the reason iff no explicit one meets another limit |
| `KeyScreen.NormalizedIsCanonical` | packages/assistant_runtime/structured_output_consumer.py:287-290 | the output is empty or lower-case words joined by single underscores |
| `KeyScreen.CanonicalIsFixed` | packages/assistant_runtime/structured_output_consumer.py:287-290 | exactly those strings are left alone |
| `KeyScreen.NormalizeKeyIdempotent` | packages/assistant_runtime/structured_output_consumer.py:287-290 | normalising twice is normalising once |
| `KeySpelling.SpellingIsRead` | packages/assistant_runtime/structured_output_consumer.py:287-290 | whatever the gaps and the case: words, separated by gaps or beginning with a capital behind a lower-case letter or digit, denote the lower-case words joined by underscores |
| `KeySpelling.EveryKeyIsSpelt` | packages/assistant_runtime/structured_output_consumer.py:287-290 | every string is such a spelling |
| `KeySpelling.CasesOfAWord` | packages/assistant_runtime/structured_output_consumer.py:287-290 | a plain word and its capitalised form are one word; in capitals iff no letter follows a digit |
| `KeySpelling.CamelCaseIsReadIff` | packages/assistant_runtime/structured_output_consumer.py:287-290 | a camel-cased phrase denotes its words iff no inner word is a single letter |
| `KeySpelling.ForbiddenSpellingsAreRejected` | packages/assistant_runtime/structured_output_consumer.py:274-290 | every spelling of a forbidden name is rejected at any depth outside tuples |
| `KeyScreen.AcceptsIffNoForbiddenKey` | packages/assistant_runtime/structured_output_consumer.py:274-284 | a payload is accepted iff every path to a key that normalises to a forbidden name enters a tuple |
| `KeyScreen.AcceptedIsCleanIffTuplesAre` | packages/assistant_runtime/structured_output_consumer.py:274-284 | an accepted payload has no forbidden key at any depth iff it has none inside a tuple |
| `KeyScreen.CleanIffWrittenFormAccepted` | packages/assistant_runtime/structured_output_consumer.py:267-284 | a payload has no forbidden key at any depth iff its JSON form, with lists for tuples, is accepted |
| `KeyScreen.TupleHidesKey` | packages/assistant_runtime/structured_output_consumer.py:282-284 | a forbidden key in an object in a tuple is accepted, in a list or alone it is not |
| `KeyScreen.ScreeningIgnoresSpelling` | packages/assistant_runtime/structured_output_consumer.py:274-290 | a payload is accepted iff it is with all keys normalised |
| `KeyScreen.ConsumptionIsSafe` | packages/assistant_runtime/structured_output_consumer.py:236-264 | when a valid draft is consumed, that its result is valid again, and that payload and metadata carry forbidden keys inside tuples only, and none iff their written forms are accepted |
| `KeyScreen.KnownStatuses` | packages/assistant_runtime/structured_output_consumer.py:20-27 | which handoff statuses are known |
| `KeyScreen.RejectionsNameTheirStatus` | packages/assistant_runtime/structured_output_consumer.py:20-27 | a rejected status is the handoff status behind `rejected_` |
| `ToolSelection.SelectTools` | packages/capability_runtime/selection.py:42-56 | the loop fills both lists in registry order and sorts the exclusions; eligible are exactly the usable entries |
| `ToolSelection.EligibleIffUsable` | packages/capability_runtime/selection.py:59-70 | usable: available, not failed before, no server or an allowed one, intent tagged, confidence at least 0.35 |
| `ToolSelection.ReasonIsFirstFailure` | packages/capability_runtime/selection.py:59-70 | an excluded tool is excluded for the first of these five facts that fails |
| `ToolSelection.StableSortIsBuckets` | packages/capability_runtime/selection.py:51 | any stable sort by priority is the three buckets concatenated |
| `ToolSelection.SelectionOrdersExclusions` | packages/capability_runtime/selection.py:51-93 | excluded tools: those that failed before, then those of servers not allowed, then all others, each in registry order |
| `ToolSelection.SelectionSplitsRegistry` | packages/capability_runtime/selection.py:45-50 | every entry stands in one list behind those of its side that precede it |
| `ToolSelection.FailureRemovesName` | packages/capability_runtime/selection.py:62-63 | a failed name removes exactly the tools of that name |
| `ToolSelection.RetryUntilExhausted` | packages/capability_runtime/selection.py:42-70 | retrying without failed tools tries the distinct eligible names once each and ends |
| `WebFallback.WalkVisitsRest` | packages/assistant_turn_integration/recovery.py:64-72 | nobody repeated ahead: the answers are the providers behind the failed one, in order, then none |
| `WebFallback.RecoverNamesSuccessor` | packages/assistant_turn_integration/recovery.py:64-72 | a provider is named iff fallback is enabled and it stands right behind the first occurrence of the failed one, or at the head of a chain without it |
| `WebFallback.FollowChain` | packages/assistant_turn_integration/recovery.py:64-72 | the walk then visits exactly the rest of the chain |
| `WebFallback.WalkEndsIffFreshAhead` | packages/assistant_turn_integration/recovery.py:64-72 | for every chain and failed name the walk ends iff every provider behind the failed one occurs there for the first time |
| `WebFallback.DistinctChainsEnd` | packages/assistant_turn_integration/recovery.py:64-72 | that holds for every failed name iff no provider is repeated |

## Left out

- Text, summaries, titles, chunks, trace and projection fields that no decision reads.
- JSON text: stored states and the provider file are modelled as the values they encode; a row of the
  provider file without a string id is not part of this model, and list entries are their `str` text.
- Secrets: `set_secret`, `remove_secret`, their file and the secret fields of a row; the catalogue file never holds them.
- Failing writes of the provider file; the model writes it on every accepted change, as the code attempts.
- Object identity of provider rows: rows are values in the control's map, so changing a row object passed
  to the constructor from outside is not captured.
- Unicode case folding: efforts are lowered by ASCII rules, which cannot change which efforts are recognised.
- Naive clock readings, and mixing them with aware ones, which raises in the source.
- Order of the approval tables and of the claim and session tables; only lookups and counts are modelled.
- The state bus's limit of 64 subscribers and several streams on one bus; one subscribed stream is modelled.
- The endless serving loop: `StateStream.Stream.Serve` runs any finite schedule of it.
- Execution results, tool orchestration and continuation records, and the denial result.
- The attributes printed behind the session cookie; nothing reads them.
- The names in the forbidden key list: the screening theorems hold for any list.
- The other recovery policies in recovery.py; each is a single branch.
- Discovery, metadata fetching, environment lookup, secret protection, HTTP routing, and the check scripts.
- The text of keys that are not strings: the source screens `str(key)`, while JSON text has another form of
  `None` and of keys that are string enumeration members.
- Scheduler.TicksKeepDailyBudget: speaks of persisted syncs and of offsets within the interval, because the code
  keeps no more; `Scheduler.FetchesBalance` and `SyncState.BudgetsHoldIffOffsetsClose` say exactly what it keeps.
- The generator in packages/control_plane_api/state.py sends on a timeout the snapshot it read before the wait; the model's timeout
  sends the current one, as packages/control_plane_api/asgi_app.py does.
- Unsubscribing at the end of a stream.
- ProviderRestore.SavedRunIsRestored: excludes untrimmed model ids and late-refused modes, because the code does not
  restore them; `ProviderRestore.RowIsRestored` is the exact condition.
