# A2A JavaScript SDK: a verified model of the server core

This project models, in Dafny, the deterministic core of the A2A (Agent2Agent) JavaScript SDK and proves
properties of it. It follows the code; where a comment or a document of the repository promises more than the code
does, the code is modelled and the difference is stated as a theorem (see "Where the code and its promises part").

The server runs an agent executor that publishes events on a per-task bus. Queues on the bus feed consumers
(blocking and non-blocking sends, streams, resubscriptions), which drain them through a `ResultManager` into a task
store. JavaScript runs one step at a time, so everything that can interleave does so at an `await`; the state machines
below take every `await` as a point where any other step may come between.

| module | what it is | repository file |
|---|---|---|
| `Base`, `Protocol` | UTF-16 strings, JSON values, Option/Result; the v1.0 records and state lists | `src/types/pb/a2a.ts`, `src/server/utils.ts` |
| `EventBus` | listener and wrapper bookkeeping of the event bus | `src/server/events/execution_event_bus.ts` |
| `EventQueue` | the queue between a publisher and one consumer | `src/server/events/execution_event_queue.ts` |
| `Lifecycle` | buses, queues, executors and trackers over any run of turns | `src/server/request_handler/default_request_handler.ts`, `src/server/events/execution_event_bus_manager.ts` |
| `Traces` | the same runs seen from one queue, one tracker, one task | `src/server/request_handler/default_request_handler.ts`, `src/server/events/execution_event_bus_manager.ts` |
| `Streams` | stream shape, resubscription, the failure path of a stream | `src/server/request_handler/default_request_handler.ts` |
| `SendMessage` | how the promise of a send settles | `src/server/request_handler/default_request_handler.ts` |
| `Sends` | both composed: what a caller gets over a whole run | `src/server/request_handler/default_request_handler.ts` |
| `PromiseChain` | the per-key promise chain | `src/server/result_manager.ts`, `src/server/push_notification/default_push_notification_sender.ts` |
| `ResultManagers` | the merge step, the class around it, history | `src/server/result_manager.ts` |
| `Artifacts` | artifact list merge and chunk folding | `src/server/result_manager.ts` |
| `Linearization` | concurrent managers on one store | `src/server/result_manager.ts`, `src/server/owner_resolver.ts` |
| `Unlocked` | follow-ups and direct cancellations, which take no lock | `src/server/request_handler/default_request_handler.ts` |
| `Store` | the in-memory task store and its cursor pagination | `src/server/store.ts` |
| `Sse` | SSE formatter and incremental parser | `src/sse_utils.ts` |
| `Canonical` | `cleanEmpty` and the JCS rendering | `src/signature.ts` |
| `JcsReader` | a strict JSON reader, and that it reads the canonical text back | `src/signature.ts` |
| `Translate`, `TranslateBack` | v1.0 to v0.3 records and back, and the other way round | `src/compat/v0_3/translate/` |

Classes with fields the source updates (`ResultManager`, `InMemoryTaskStore`, `DefaultExecutionEventBus`,
`ExecutionEventQueue`, the promise-chain map) are Dafny classes whose methods are proved against functions on values;
loops (`parseSseStream`, `cleanEmpty`, `mergeArtifacts`, the drain loops, `list`) are Dafny loops proved the same way.
The theorems are about those functions and about all runs of the state machines built from them.

## Where the code and its promises part

- An executor that announces INPUT_REQUIRED in a task event, rather than in a status update, and returns leaves its own
  consumer waiting: the queue does not stop at task events, the default keep-alive states keep the bus, and nobody is
  running any more, so the promise of a blocking send never settles (`Lifecycle.InputRequiredTaskHangs`,
  `Sends.InputRequiredTaskNeverSettles`). In general a live queue
  ends after its executor has settled if and only if the bus is torn down or the queue holds a message, terminal or
  INPUT_REQUIRED status (`Lifecycle.SettledQueueEndsIff`). A rejection, by contrast, ends every queue on the bus.
- A rejected streaming executor does not always close its bus. `_runStreamExecutor` reads, and thereby detaches, its
  state tracker before it publishes the synthesized FAILED status, so the bus is settled with the last state seen
  before. After AUTH_REQUIRED the bus is kept although its client has seen a well-formed stream that ends in FAILED
  (`Lifecycle.FailedStreamMayKeepItsBus`; the exact condition is `Lifecycle.BusOutlivesExecutorIffKept` with
  `Lifecycle.TrackerFollowsItsBus`).
- A rejected streaming executor synthesizes a task only if its own turn has published none, a blocking one always does.
  Other queues on the bus end as well, but their streams may be out of order: a resubscriber's is well formed if and only
  if what its queue held up to its stop, else also the failure, brings no second task event
  (`Lifecycle.RejectionEndsResubscription`); for a queue read as it is, of an earlier turn, the condition is that of
  `Lifecycle.RejectionEndsEveryQueue`.
- The write lock and the store disagree about who owns a task: the lock key holds the user name, the store scope whatever
  its owner resolver says. Any two callers whose task is one slot to the store but who have different user names can lose
  an update (`Linearization.DifferentLocksLoseAnUpdate`). For any resolver, a set of callers never does if and only if
  the resolver gives no owner to two user names of one tenant (`Linearization.NoUpdateIsLostIff`); so a resolver by role
  or project loses updates, and the default one does if and only if an anonymous caller and one called "unknown" meet in
  one tenant (`Linearization.DefaultResolverLosesIff`).
- Follow-up messages and direct cancellations take no lock at all. Such a save overwrites whatever was saved since its
  load: a follow-up's is as good as one at once if and only if the stored task has not changed in between
  (`Unlocked.FollowUpIsUpToDateIff`), and an update that was in flight around it drops the message
  (`Unlocked.UpdateInFlightDropsFollowUp`). Nothing is lost when no save comes between another writer's load and save
  (`Unlocked.NoOverlapNothingLost`).
- `_settleBus` cleans up by task id. `Lifecycle.SettleKeepsHeardIff` says exactly when that leaves some live queue or
  tracker cut off from its bus; with overlapping executors it happens
  (`Lifecycle.OverlappingExecutorsStrandATurn`). The theorems about whole runs therefore let a turn start only when no
  executor still runs on the task's bus.
- A follow-up message is appended to the history unconditionally, so a client that repeats a message id duplicates it
  (`ResultManagers.FollowUpKeepsHistoryDistinct`).
- A page token joins timestamp and id with `|` and splits at the first one. It works for every id, and for a timestamp
  exactly when it holds no `|` (`Store.TokenRoundTrip`, `Store.CursorResumesExactly`).
- Between pages the store may change in any way. A task whose key stays is listed exactly when the walk is not cut off
  before it, and it is cut off exactly when the task the last token named has changed its timestamp, left the filter or
  gone by the next page; the page is then empty and without a token (`Store.UnchangedTasksAppearOnce`, `Store.VanishedCursor`).
- `statusTimestampAfter` is strict, as in the code, although the protocol comment reads as inclusive.
- The SSE size cap is charged for the whole line, so a payload fits when it is six code units below the cap, and an
  error frame needs a cap of at least twelve (`Sse.FormatParseRoundTrip`). The parser is not a full implementation of
  sections 9.2.5 and 9.2.6 of the WHATWG HTML Standard: a lone CR ends no line, a dispatch without data keeps the event
  type, empty leading data lines vanish, and a pending event is yielded at the end of the stream.
- `cleanEmpty` silently drops an own `__proto__` key, because it assigns into an ordinary object.
- After the caller has been answered, a drain error is persisted as FAILED only if there is a current task, the store
  still holds it, and the repair's own load and save succeed (`SendMessage.ErrorIsPersistedIff`).
- Translating to v0.3 loses what v0.3 cannot hold; `RepresentablePart` and its siblings say exactly what.

## Model

| member | source | states |
|---|---|---|
| Canonical.CleanEmpty | src/signature.ts:125-148 | the recursive loop over lists and keys, in whatever order keys come, computes the normal form `Clean` |
| Canonical.CleanIsEmptyOrSolid | src/signature.ts:125-148 | the result is null or holds no empty string, null, list or object at any depth |
| Canonical.SolidIsFixed | src/signature.ts:125-148 | a value with nothing empty in it is returned unchanged |
| Canonical.CleanNormalForm | src/signature.ts:125-148 | cleaning is idempotent, and its fixed points are exactly null and the values with nothing empty in them |
| Canonical.CleaningMembersFirst | src/signature.ts:135-145 | cleaning a member first, or removing an empty (or `__proto__`) one first, does not change the result; together with the fixed points this determines the function |
| Canonical.CleaningItemsFirst | src/signature.ts:130-133 | the same for a list item at any position |
| Canonical.LeIsTotalOrder | src/signature.ts:164 | comparison by UTF-16 code units, the order of section 3.2.3 of RFC 8785, is a total order |
| Canonical.AscendingIsUnique | src/signature.ts:164 | sorted keys depend only on the set of keys, not on insertion order |
| Canonical.SortedKeys | src/signature.ts:164 | the sorted key list is ascending and lists exactly the keys |
| Canonical.EscapeIsPrefixFree | src/signature.ts:156 | string escapes of section 3.2.2 of RFC 8785 can be read back from any text they start |
| Canonical.UnitsArePrefixFree | src/signature.ts:156 | two quoted strings followed by any text are equal only if string and rest are equal, surrogates included |
| Canonical.NumbersArePrefixFree | src/signature.ts:156 | a number followed by a delimiter can be read back |
| Canonical.ValuesArePrefixFree | src/signature.ts:154-168 | no canonical text of a value continues into that of another: value and rest can both be read back |
| Canonical.ItemsArePrefixFree | src/signature.ts:159-161 | a rendered list can be read back from any text it starts |
| Canonical.MembersArePrefixFree | src/signature.ts:163-167 | rendered members give back their keys in order and their values |
| Canonical.EmitIsJcs | src/signature.ts:154-168 | the text-with-rest form used in the injectivity proof is the canonical text followed by the rest |
| Canonical.JcsIsInjective | src/signature.ts:154-168 | two JSON values have the same canonical text if and only if they are equal up to key order |
| Canonical.SamePayloadIffSameCard | src/signature.ts:185-196 | two cards are signed over the same text if and only if they agree once signatures and empty values are dropped |
| Canonical.SignaturesDoNotChangePayload | src/signature.ts:189 | adding, replacing or removing signatures leaves the signed text alone |
| Canonical.CleaningDoesNotChangePayload | src/signature.ts:191 | a field that cleans to nothing may be present or absent |
| JcsReader.LeIsKeyOrder | src/signature.ts:164 | key order by its meaning: the first differing code unit decides, and a proper beginning comes first |
| JcsReader.EscapeIsRead | src/signature.ts:156 | a reader with its own escape table reads each unit back from its shortest form, the only one it accepts |
| JcsReader.UnitsAreRead | src/signature.ts:156 | it reads a quoted string back, and what follows, surrogate pairs raw and halves as four lower-case digits |
| JcsReader.ValueIsRead | src/signature.ts:154-168 | it reads the canonical text of any value, delimited, as the canonical document and the rest |
| JcsReader.DocIs | src/signature.ts:163-164 | that document denotes the value and has its keys in order at every depth |
| JcsReader.JcsIsRead | src/signature.ts:154-168 | a strict reader of section 3.2 of RFC 8785, with its own tables, finds in the canonical text the value it was made from and nothing else, all keys in order |
| JcsReader.SignedTextIsRead | src/signature.ts:185-196 | what is signed reads as exactly one object: the card without `signatures`, cleaned, or the empty object |
| Sse.HandleLine | src/sse_utils.ts:123-143 | one line acts as the specification fold says, or exceeds the data cap with nothing yielded |
| Sse.ParseSseStream | src/sse_utils.ts:93-157 | the buffer loop over arbitrary chunks yields the events and the size error that the fold over recognised lines gives |
| Sse.FeedSplits | src/sse_utils.ts:107-151 | feeding two pieces one after the other is feeding them joined |
| Sse.FeedAllIsFeedMore | src/sse_utils.ts:107-151 | feeding a list of chunks is feeding their concatenation |
| Sse.ChunkIndependence | src/sse_utils.ts:93-157 | two splittings of one text give the same events and the same success or size error, for every cap but a negative one, where exactly the empty chunk list differs |
| Sse.HeldMemoryIsBounded | src/sse_utils.ts:107-151 | after any prefix of any stream, held event data and the residual buffer are within the cap and hold no line end |
| Sse.FrameIsParsed | src/sse_utils.ts:41-57 | one formatted frame is read back with type and payload if it fits the cap, and is a line-too-long error if not |
| Sse.FormatParseRoundTrip | src/sse_utils.ts:41-57 | any chunking of a concatenation of formatted data and error events gives back exactly the events before the first one over the cap, all of them and no error if and only if all fit |
| Sse.ContinuedData | src/sse_utils.ts:133-143 | further data lines are joined to collected data by line feeds |
| Sse.MultiLineData | src/sse_utils.ts:133-143 | a payload over several data lines comes back joined, leading empty lines vanishing, and only-empty data yielding nothing |
| Sse.SpaceIsOptional | src/sse_utils.ts:171-173 | `data:` and `event:` lines mean the same with and without the space after the colon |
| Sse.OtherLinesAreIgnored | src/sse_utils.ts:128-143 | comments and lines of other fields change nothing |
| Sse.CrLfEndsALine | src/sse_utils.ts:112-119 | CR LF ends a line as LF does, the CR counting for the line cap only |
| Sse.TruncatedStream | src/sse_utils.ts:153-156 | a stream without its last blank line still gives the pending event, and drops an unterminated line |
| Artifacts.MergeArtifacts | src/server/result_manager.ts:306-332 | the map-and-set loop computes the merge, early returns included |
| Artifacts.MergeIsUniform | src/server/result_manager.ts:310-315 | the two early returns are instances of the general case, and the ids are the union |
| Artifacts.MergeIsRightBiasedUnion | src/server/result_manager.ts:306-332 | looking up any id in the merge finds the incoming artifact if there is one, else the persisted one |
| Artifacts.MergeIsAssociative | src/server/result_manager.ts:306-332 | merging is associative with the empty list as identity, on all lists, distinct ids or not |
| Artifacts.MergeKeepsOrderAndDistinctness | src/server/result_manager.ts:322-331 | persisted places are kept, new ids follow in incoming order, distinct ids stay distinct |
| Artifacts.MergeIsIdempotent | src/server/result_manager.ts:306-332 | merging a list into itself changes nothing if and only if entries sharing an id are equal |
| Artifacts.ApplyIsLocal | src/server/result_manager.ts:271-295 | an update changes the artifact it names, by replacing or extending it, and no other |
| Artifacts.ApplyKeepsIds | src/server/result_manager.ts:271-295 | ids keep their order, a new one comes last, distinct ids stay distinct |
| Artifacts.FoldIsPerArtifact | src/server/result_manager.ts:256-298 | after any run of updates an artifact depends only on its own updates, whatever they were interleaved with, and ids are unique |
| Artifacts.PartsSinceLastReset | src/server/result_manager.ts:274-295 | its parts are the concatenation of its own chunks since its last non-append update, or its first |
| Artifacts.ArtifactsKeepFirstAppearanceOrder | src/server/result_manager.ts:293-295 | artifacts stay in the order their ids first appeared |
| Artifacts.FieldsSinceLastReset | src/server/result_manager.ts:274-295 | its name and description are the last non-empty ones since that reset, each metadata key has the value last given to it since, id and extensions are those of the reset |
| ResultManagers.SlotStepIsProcess | src/server/result_manager.ts:170-298 | what an event writes depends on the loaded task and the request's message only, and goes to the event's own task |
| ResultManagers.MessageEventIsKept | src/server/result_manager.ts:101-106 | a message becomes the final result and touches nothing else |
| ResultManagers.TaskEventStores | src/server/result_manager.ts:170-216 | what a task event stores, field by field: status and context its own, artifacts and metadata united with the stored ones and winning, an empty history giving way, the request's message in front once |
| ResultManagers.StatusUpdateStores | src/server/result_manager.ts:235-254 | the stored task with the new status and its message behind the history once, nothing else changed; without such a task nothing, and the current one is forgotten |
| ResultManagers.ArtifactUpdateStores | src/server/result_manager.ts:256-298 | nothing but the named artifact changes: replaced, or on append its parts continued and only non-empty fields and given metadata keys overwritten |
| Protocol.SpreadLookup | src/server/result_manager.ts:196-201 | in united metadata the second bag's value wins, key by key |
| ResultManagers.ResultManager.constructor | src/server/result_manager.ts:83-86 | a new manager knows no task and no message |
| ResultManagers.ResultManager.SetContext | src/server/result_manager.ts:88-91 | only the request's message is remembered |
| ResultManagers.ResultManager.ProcessEvent | src/server/result_manager.ts:99-146 | fields and store become what the pure step gives; no other task, owner or tenant changes |
| ResultManagers.ResultManager.ProcessTaskEvent | src/server/result_manager.ts:170-216 | the stored task is the merge of the persisted and the incoming one, with the request's message in its history |
| ResultManagers.ResultManager.ApplyStatusUpdate | src/server/result_manager.ts:235-254 | the stored task gets the status, and its message once; an unknown task clears the current one and writes nothing |
| ResultManagers.ResultManager.ApplyArtifactUpdate | src/server/result_manager.ts:256-298 | the in-place branches compute the artifact fold step; a missing artifact or task writes nothing |
| ResultManagers.StepKeepsHistoryDistinct | src/server/result_manager.ts:207-212 | an event leaves the stored history free of repeated message ids if and only if it was, or, for a task event, the history it brings is |
| ResultManagers.StoredHistoryStaysDistinct | src/server/result_manager.ts:170-254 | over every run of events and follow-ups on any slot the stored history has no repeated message id if no executor supplies a repeating history and no accepted follow-up reuses an id; without executor-supplied histories, if and only if none does |
| ResultManagers.FollowUpKeepsHistoryDistinct | src/server/request_handler/default_request_handler.ts:167-190 | a follow-up that is accepted leaves the history free of repeated ids if and only if it was and the id is new |
| ResultManagers.FollowUpIs | src/server/request_handler/default_request_handler.ts:167-190 | when a follow-up is refused and as what; otherwise the message goes behind the history and nothing else changes |
| ResultManagers.ChangeKeepsHistoryDistinct | src/server/result_manager.ts:170-254 | the same for one event or follow-up |
| ResultManagers.UserMessageStays | src/server/result_manager.ts:204-254 | after a task event the request's message is in the stored history, through any later status and artifact updates of any manager |
| ResultManagers.ReplayChangesNothing | src/server/result_manager.ts:170-254 | replaying a status update, or a task event with consistent artifacts, straight away changes nothing; for a new task consistency is also necessary |
| ResultManagers.ChunkReplay | src/server/result_manager.ts:256-298 | replaying an artifact update changes nothing if and only if it replaces or carries no parts |
| Store.BeforeIsTotal | src/server/store.ts:96-103 | newest first, ties by id descending, is a strict total order on keys |
| Store.ListingIsNewestFirst | src/server/store.ts:96-103 | newest timestamp first, an absent one last, ties by greater id |
| Store.MatchesIff | src/server/store.ts:81-94 | the context, status and timestamp filters, each by what it asks of a task, and when each asks nothing |
| Store.ListingCounts | src/server/store.ts:105 | the total is the number of stored tasks that pass the filters |
| Store.RespondIs | src/server/store.ts:105-153 | total and page size of the response, 50 by default, its tasks those of the page without artifacts unless asked for, and its only error |
| Store.SliceToIs | src/server/store.ts:132 | the slice is a beginning of the list, for a negative size all but so many at the end |
| Store.DefaultScopeIs | src/server/owner_resolver.ts:16-18 | under the default resolver two callers are one scope if and only if they are of one tenant and of one name, absent, empty and "unknown" being one |
| Store.InMemoryTaskStore.ScopesAre | src/server/utils.ts:96-106 | whatever the resolver, two callers share a scope if and only if they are of one tenant, absent counting as empty, and it names one owner for both |
| Store.ListingIsUnique | src/server/store.ts:80-103 | there is only one ordered list of given tasks |
| Store.InsertTaskKeepsOrder | src/server/store.ts:96-103 | inserting keeps a list ordered and adds just that task |
| Store.TokenRoundTrip | src/server/store.ts:109-114 | a page token decodes to its own timestamp and id if and only if the timestamp holds no bar |
| Store.CursorResumesExactly | src/server/store.ts:107-130 | a page token resumes right after its task if and only if its timestamp holds no bar |
| Store.PageAt | src/server/store.ts:107-147 | the page at a token is the next slice, with a token for the one after if and only if tasks are left |
| Store.WalkListsEverything | src/server/store.ts:67-154 | following tokens on an unchanged store gives exactly the filtered list in order, each task once, in max(1, ceil(n / pageSize)) pages |
| Store.WalkExists | src/server/store.ts:67-154 | that walk always ends |
| Store.VanishedCursor | src/server/store.ts:116-125 | a token whose key has gone gives an empty last page |
| Store.PageAfter | src/server/store.ts:107-147 | the page after any cursor, still there or not |
| Store.WalkOverChangingStore | src/server/store.ts:67-154 | from any cursor on, over a store that changes in any way between pages, what is listed is strictly descending, and a task whose key stays is listed if and only if the walk is not cut off before it |
| Store.UnchangedTasksAppearOnce | src/server/store.ts:67-154 | over a whole such walk no key repeats, a kept key is listed under that exact condition, and then an unchanged task appears exactly once |
| Store.InMemoryTaskStore.constructor | src/server/store.ts:52-54 | a new store holds nothing in any scope and resolves owners as it is told |
| Store.InMemoryTaskStore.Load | src/server/store.ts:56-60 | the caller's own task under that id, or none |
| Store.InMemoryTaskStore.Save | src/server/store.ts:62-65 | one slot is overwritten for every caller of this tenant and owner, and no caller of another tenant or owner finds anything changed |
| Store.InMemoryTaskStore.List | src/server/store.ts:67-154 | the page, token and total of the one ordered list of exactly the matching tasks of the caller's scope |
| Store.InMemoryTaskStore.ListTasks | src/server/request_handler/default_request_handler.ts:747-766 | the same for page sizes 1 to 100 and readable timestamps, each task's history cut to the most recent messages asked for, else the matching error |
| PromiseChain.InvHolds | src/server/result_manager.ts:44-55 | links, order and map entries are right in every reachable state |
| PromiseChain.OneAtATimeInOrder | src/server/result_manager.ts:44-55 | under one key at most one job runs, and jobs start in chaining order |
| PromiseChain.NeverBlockedByRejection | src/server/result_manager.ts:46 | a waiting job may start if and only if all earlier ones under its key have settled, fulfilled or rejected |
| PromiseChain.TailsAreExact | src/server/push_notification/default_push_notification_sender.ts:98-123 | a live tail is never evicted, the entry of a key is its newest job until that job's callback ran, and a drained key leaves none |
| PromiseChain.Serializer.constructor | src/server/result_manager.ts:27 | no job, no entry |
| PromiseChain.Serializer.Enqueue | src/server/result_manager.ts:45-47 | chaining onto the current tail is the chaining step |
| PromiseChain.Serializer.OnSettled | src/server/result_manager.ts:48-53 | the evict callback removes the entry only if it is this job's |
| Linearization.AnyPointMayFail | src/server/result_manager.ts:170-298 | a job may fail at any await, so the theorems cover every failure of the store |
| Linearization.RunIsLinear | src/server/result_manager.ts:99-146 | in every reachable state each slot is the fold of its committed writes and each running snapshot is current |
| Linearization.SaveIsLinear | src/server/result_manager.ts:170-298 | a save appends its own write to the fold and disturbs no other slot |
| Linearization.StoreIsSequentialFold | src/server/result_manager.ts:99-146 | for every interleaving of any number of managers, failed loads and saves included, the stored task is the sequential fold of the events that took effect, in the order they were enqueued |
| Linearization.NoContributionIsLost | src/server/result_manager.ts:64-70 | when all jobs were fulfilled, that fold is over all events enqueued for the slot |
| Linearization.SameNameSameLock | src/server/result_manager.ts:33-37 | two callers of one tenant share the lock of a task if and only if they have one user name |
| Linearization.LocksAreSeparate | src/server/result_manager.ts:33-37 | for names without NUL, one lock is one tenant, one user name and one task: no two of either ever share one |
| Linearization.SameSlotSameLock | src/server/owner_resolver.ts:16-18 | under the default resolver two callers of one slot share its lock if and only if they are not an anonymous one and one named "unknown" |
| Linearization.LocksCoverSlotsIff | src/server/result_manager.ts:33-37 | whatever the resolver, the locks cover the slots of any requests if and only if any two on one slot come under one user name |
| Linearization.DifferentLocksLoseAnUpdate | src/server/result_manager.ts:33-37 | for any two callers whose task is one slot to the store and who have different locks, a run whose stored task is no sequential fold of their two events |
| Linearization.NoUpdateIsLostIff | src/server/result_manager.ts:99-146 | for any owner resolver and any set of callers, every run stores sequential folds if and only if the resolver gives no owner to two user names of one tenant |
| Linearization.DefaultResolverLosesIff | src/server/owner_resolver.ts:16-18 | for the default resolver that is: no two callers of one tenant are an anonymous one and one named "unknown" |
| EventBus.AddIsConsistent | src/server/events/execution_event_bus.ts:174-216 | registering keeps tracked wrappers equal to registered ones |
| EventBus.RemoveIsConsistent | src/server/events/execution_event_bus.ts:218-227 | so does removing |
| EventBus.InvokeIsConsistent | src/server/events/execution_event_bus.ts:229-240 | so does delivering to a `once` listener |
| EventBus.OffUndoesOn | src/server/events/execution_event_bus.ts:206-240 | `off` undoes `on` and delivery undoes `once`, leaving map, target and other listeners' places as they were |
| EventBus.RegisteredAfter | src/server/events/execution_event_bus.ts:117-137 | `on` and `off` add and remove exactly that listener of the set of listeners, when each is registered at most once |
| EventBus.CountAfter | src/server/events/execution_event_bus.ts:117-137 | in general `on` and `once` add one registration of that listener, `off` takes one away if there is any, and the target follows |
| EventBus.PerformIsConsistent | src/server/events/execution_event_bus.ts:117-148 | each of `on`, `once` and `off` keeps both sides of the bus consistent |
| EventBus.DispatchIsConsistent | src/server/events/execution_event_bus.ts:109-115 | a dispatch keeps tracked wrappers equal to registered ones, whatever the listeners it calls register or remove meanwhile |
| EventBus.DispatchDropsOnce | src/server/events/execution_event_bus.ts:109-115 | if they leave the bus alone, a dispatch removes exactly the `once` wrappers, keeps the order of the others and leaves the other name as it was |
| EventBus.FinishedStopsEveryQueue | src/server/events/execution_event_bus.ts:113-115 | when queue handlers call `stop` during the dispatch of `finished`, as they do, nothing is left under `finished` and exactly those queues' handlers are gone under `event` |
| EventBus.DefaultExecutionEventBus.constructor | src/server/events/execution_event_bus.ts:102-107 | no listeners |
| EventBus.DefaultExecutionEventBus.On | src/server/events/execution_event_bus.ts:117-126 | one new wrapper under that name, in map and target; the other name untouched |
| EventBus.DefaultExecutionEventBus.Once | src/server/events/execution_event_bus.ts:139-148 | the same with a wrapper that leaves on delivery |
| EventBus.DefaultExecutionEventBus.Off | src/server/events/execution_event_bus.ts:128-137 | the newest wrapper of the listener leaves map and target |
| EventBus.DefaultExecutionEventBus.ClearSide | src/server/events/execution_event_bus.ts:151-158 | because tracked wrappers are the registered ones, removing the tracked ones leaves nothing on the target |
| EventBus.DefaultExecutionEventBus.RemoveAllListeners | src/server/events/execution_event_bus.ts:150-170 | the named side, or both without a name, is emptied; the other is untouched |
| EventQueue.StepKeepsValid | src/server/events/execution_event_queue.ts:20-75 | every publish, finish and consumer step keeps the queue invariant |
| EventQueue.NeverLosesAWakeUp | src/server/events/execution_event_queue.ts:20-74 | over every run a consumer that cannot resume has an empty queue that is not stopped |
| EventQueue.DeliversExactlyTheCut | src/server/events/execution_event_queue.ts:42-63 | what is yielded is a prefix of what was taken in, cut after the first message, terminal or INPUT_REQUIRED status, and all of that once the generator has returned by itself |
| EventQueue.AcceptsUntilStopped | src/server/events/execution_event_queue.ts:20-27 | it takes in everything published from construction until it stops, and nothing after |
| EventQueue.AcceptedIsPublished | src/server/events/execution_event_queue.ts:20-27 | what a stopped queue has taken in is exactly what was published before the step it stopped at |
| EventQueue.EndingQueueDrains | src/server/events/execution_event_queue.ts:42-63 | a stopped queue, or one holding a stopping event, makes its consumer return within its buffer plus two turns, having yielded the cut |
| EventQueue.LiveQueueEndsIff | src/server/events/execution_event_queue.ts:42-63 | a queue that has not stopped can end by itself if and only if it holds a stopping event |
| EventQueue.LiveQueueWaits | src/server/events/execution_event_queue.ts:57-61 | otherwise its consumer ends up waiting with everything delivered |
| EventQueue.CutConcat | src/server/events/execution_event_queue.ts:42-63 | how cutting acts on events published later |
| EventQueue.CutIsTheStoppingPrefix | src/server/events/execution_event_queue.ts:47-56 | the cut is the one prefix that stops at most at its end, and stops there unless it is everything |
| EventQueue.OnlyStopEventsCut | src/server/events/execution_event_queue.ts:34-40 | inserting an AUTH_REQUIRED status anywhere only adds itself: nothing else is cut off or let through |
| EventQueue.ExecutionEventQueue.constructor | src/server/events/execution_event_queue.ts:14-18 | an empty queue, registered once under each event name |
| EventQueue.ExecutionEventQueue.HandleEventListener | src/server/events/execution_event_queue.ts:20-27 | an event is appended and a parked consumer woken, unless stopped |
| EventQueue.ExecutionEventQueue.StopQueue | src/server/events/execution_event_queue.ts:65-74 | stopped, a parked consumer woken, both listeners gone |
| EventQueue.ExecutionEventQueue.Advance | src/server/events/execution_event_queue.ts:42-63 | the generator runs to its next suspension exactly as the state machine does, leaving both names of the bus when it stops |
| Streams.SendMessageStream | src/server/request_handler/default_request_handler.ts:708-729 | each event is yielded as published, but a task as the store has it, its history cut to the most recent messages; behind a queue every run yields a prefix of one message, or of one task followed by updates with nothing after the stop; it never takes the message-only error branch, and ends without error if and only if the events are so shaped and none fails to process, else at the first that is not or does, with the matching error |
| Streams.ShownKeepsShape | src/server/request_handler/default_request_handler.ts:992-1014 | showing the stored task with the history limit in place of the published one keeps a stream well formed or not |
| Streams.QueueFeedsStreams | src/server/events/execution_event_queue.ts:47-56 | what any run of a queue delivers stops at most at its end, which is what the stream loop needs |
| Streams.Resubscribe | src/server/request_handler/default_request_handler.ts:921-981 | the stored snapshot and then exactly the task's own non-message events, or the refusal: no streaming, failed load, missing or terminal task |
| Streams.ForwardedIsExact | src/server/request_handler/default_request_handler.ts:958-981 | forwarding keeps order and multiplicity, keeps task, status and artifact events of this very task, and drops messages and what names another task |
| Streams.ResubscriptionSeesTheCut | src/server/request_handler/default_request_handler.ts:927-984 | at any time a resubscription has shown the snapshot and a gapless beginning of the task's events published since it attached, up to the first stopping event; once it has drained a queue that stopped at some step, all of those published before that step |
| Streams.RefusalIff | src/server/request_handler/default_request_handler.ts:921-941 | a resubscription is refused if and only if streaming is off, the load fails, the task is missing, or it is completed, failed, canceled or rejected |
| Streams.ResubscribedShape | src/server/request_handler/default_request_handler.ts:943-981 | what a resubscription shows of a queue's deliveries is well formed if and only if they hold no task event of its own task |
| Streams.FailureEnds | src/server/request_handler/default_request_handler.ts:431-446 | whatever a queue had taken in, adding the failure ends it, at its own stop or at FAILED; the exact condition for what it shows to be well formed |
| Streams.RejectedStreamEnds | src/server/request_handler/default_request_handler.ts:481-571 | with a task synthesized if and only if none was published, the rejected stream is well formed if and only if the executor's own part is |
| Lifecycle.RunsKeepInv | src/server/request_handler/default_request_handler.ts:382-575 | over all runs a bus is heard by exactly its live queues and running trackers, and running executors sit on their task's own bus, one each |
| Lifecycle.RunsAreFull | src/server/request_handler/default_request_handler.ts:1192-1210 | and a live turn's tracker has seen a task if and only if its queue has taken one in |
| Lifecycle.EndSettles | src/server/request_handler/default_request_handler.ts:447-471 | how an executor settles, from any state satisfying the invariant |
| Lifecycle.SettleDecides | src/server/request_handler/default_request_handler.ts:461-471 | settling either leaves the bus exactly as it was, or unregisters it, removes every listener and stops all its queues |
| Lifecycle.FinishBusIsDispatch | src/server/request_handler/default_request_handler.ts:469 | `finished` in this model is the dispatch to handlers that call `stop` |
| Lifecycle.TwoListenersPerLiveQueue | src/server/request_handler/default_request_handler.ts:1160-1166 | after any number of turns the listeners of a bus are exactly two per live queue plus at most one tracker |
| Lifecycle.BusOutlivesExecutorIffKept | src/server/request_handler/default_request_handler.ts:461-471 | when an executor settles the bus is torn down if and only if the last state its tracker saw is not kept alive; otherwise the same bus and queues serve the next turn |
| Lifecycle.TrackerFollowsItsBus | src/server/request_handler/default_request_handler.ts:1151-1210 | that state is the one last announced while the tracker listened, step by step: a `catch` makes it FAILED in a blocking turn and freezes it in a streaming one, with any publish between `catch` and `finally` counted |
| Lifecycle.RejectionReachesQueue | src/server/request_handler/default_request_handler.ts:431-446 | every live queue on the bus takes in the synthesized events, streaming or blocking |
| Lifecycle.RejectionEndsEveryQueue | src/server/request_handler/default_request_handler.ts:390-446 | in every run, whichever executor is rejected, each queue live on its bus returns by itself within a bounded number of steps, having delivered the cut of what it had and the synthesized events; the exact condition for these deliveries to be a well-formed stream |
| Lifecycle.RejectionEndsResubscription | src/server/request_handler/default_request_handler.ts:943-981 | what a resubscriber has shown when a rejection ends its queue is well formed if and only if neither what the queue held nor, if it held no stop, the failure brings another task event of its task |
| Lifecycle.RejectedStreamAlwaysEnds | src/server/request_handler/default_request_handler.ts:481-575 | in the rejected streaming turn's own queue that condition is that the executor's own part is well formed, a task being synthesized if and only if none was published |
| Lifecycle.EndingIsStable | src/server/events/execution_event_queue.ts:42-75 | once a queue is bound to end, no later step of anyone changes that or what it will have shown |
| Lifecycle.SettledQueueEndsIff | src/server/request_handler/default_request_handler.ts:447-471 | after an executor has settled, a live queue of its bus ends if and only if the bus is torn down or it holds a stopping event; otherwise its consumer waits with everything delivered |
| Lifecycle.InputRequiredTaskHangs | src/server/request_handler/default_request_handler.ts:461-471 | a run in which an executor announces INPUT_REQUIRED in a task event and returns, and its consumer waits with nobody running |
| Lifecycle.FailedStreamMayKeepItsBus | src/server/request_handler/default_request_handler.ts:497-574 | a run in which a consumer has been shown a task, AUTH_REQUIRED and FAILED, well formed and ended, and the task keeps the bus |
| Lifecycle.CleanupKeepsHeardIff | src/server/events/execution_event_bus_manager.ts:24-30 | cleaning up a task cuts nobody off if and only if its bus has no live queue and no tracker |
| Lifecycle.SettleKeepsHeardIff | src/server/request_handler/default_request_handler.ts:461-471 | in any state, overlapping executors or not, a settle that tears a bus down leaves every live queue and tracker on its bus if and only if the task is unregistered, or its bus has no tracker left and is this one or has no live queue |
| Lifecycle.OverlappingExecutorsStrandATurn | src/server/request_handler/default_request_handler.ts:469-470 | for all keep-alive states, a run of overlapping executors that leaves a running turn with a live queue on a bus without listeners |
| Traces.SubscribeAttaches | src/server/request_handler/default_request_handler.ts:927-930 | a resubscription is always possible; if the task has a bus it adds one fresh, live queue heard under both names there and nothing else, otherwise it changes nothing |
| Traces.TurnAttaches | src/server/request_handler/default_request_handler.ts:606-614 | a turn uses the task's bus or a new empty one, adds one fresh queue and one running executor listening there, and changes nothing else |
| Traces.TaskKeepsItsBus | src/server/events/execution_event_bus_manager.ts:11-30 | a task keeps its bus until an executor of it settles in a state that is not kept alive, and loses it then |
| Traces.StoppedConsumerLeaves | src/server/request_handler/default_request_handler.ts:730-734 | a consumer that breaks out is off the bus for good |
| Traces.AnythingMayHappen | src/server/request_handler/default_request_handler.ts:382-475 | runs leave nothing out: publishing, consuming, leaving, rejecting and settling are possible whenever the code allows them |
| Traces.TraceIsRun | src/server/request_handler/default_request_handler.ts:382-575 | traces with their states are the runs of `Lifecycle`; `RunHasTrace` is the converse |
| Traces.RunHasTrace | src/server/request_handler/default_request_handler.ts:382-575 | every run has its states |
| Traces.QueueFollowsItsBus | src/server/events/execution_event_queue.ts:14-75 | in every run of the system each queue is what the queue machine makes of the steps that reached it, so its theorems hold of it |
| Traces.ConsumerReachesDrain | src/server/events/execution_event_queue.ts:42-63 | what a queue is said to yield when drained, its consumer reaches by its own steps alone, from every state of every run |
| Traces.AttachedQueueHearsAll | src/server/request_handler/default_request_handler.ts:606-614 | the queue a turn or resubscription attached has taken in, while live, exactly what was published on its bus since, failures included; once stopped, a beginning of that |
| Traces.ResubscriberSeesItsTask | src/server/request_handler/default_request_handler.ts:927-981 | a resubscriber has shown the snapshot and a gapless beginning of its task's events since it attached, all of them while it waits |
| Traces.TrackerHearsItsTurn | src/server/request_handler/default_request_handler.ts:1151-1210 | a listening tracker holds exactly the last state and task published on its bus since the turn began |
| Traces.TurnKeepsItsBusIff | src/server/request_handler/default_request_handler.ts:447-471 | when a turn settles its bus is torn down if and only if the last state published during the turn, a failure's included, is not kept alive; for every turn but a rejected streaming one |
| Traces.DefaultTurnKeepsItsBusIff | src/server/request_handler/default_request_handler.ts:115 | with the default states: unless that state is INPUT_REQUIRED or AUTH_REQUIRED |
| Traces.RejectedStreamKeepsItsBusIff | src/server/request_handler/default_request_handler.ts:497-575 | for that one the last state before the rejection decides, and nothing published later |
| SendMessage.SettlementIsUnique | src/server/request_handler/default_request_handler.ts:618-670 | only one settlement fits a run |
| SendMessage.Drain | src/server/request_handler/default_request_handler.ts:266-358 | once the queue ends the promise has settled, with the one settlement the run determines; a task is persisted only for an error after the answer, and is then the repaired one |
| Protocol.LimitedKeepsLatest | src/server/request_handler/default_request_handler.ts:1125-1138 | the history limit keeps the most recent messages, at most so many, none for zero or less, all without a limit, and nothing else of the task changes |
| SendMessage.ProcessingFailsIff | src/server/result_manager.ts:99-146 | an event fails to process if and only if it needs the store and its load or its save fails |
| SendMessage.FinalMessageIsLast | src/server/result_manager.ts:101-106 | after any events the manager's message is the last one published |
| SendMessage.CurrentTaskIsLast | src/server/result_manager.ts:170-298 | and its task what the last event that looked at the store made of it |
| SendMessage.ErrorIsPersistedIff | src/server/request_handler/default_request_handler.ts:1052-1093 | the repair saves the stored task with status FAILED if and only if it has an id, the store still holds it and the repair's load and save succeed |
| SendMessage.BlockingOutcome | src/server/request_handler/default_request_handler.ts:618-656 | blocking: the task at the first AUTH_REQUIRED with a known task, else the first processing error, else the last message published, else the current task, else an error; a task always with its most recent messages only |
| SendMessage.NonBlockingOutcome | src/server/request_handler/default_request_handler.ts:657-670 | non-blocking: the first task or message to become known, as published or, at an update, as the manager has it, a task with its most recent messages only; else the first processing error, else the protocol error |
| Sends.SettlesIff | src/server/request_handler/default_request_handler.ts:618-670 | a caller's promise has settled if and only if the events have ended, or one of them answered or failed |
| Sends.SendSettlesIff | src/server/request_handler/default_request_handler.ts:577-671 | in every run, once a turn's executor has settled and its drain is at rest, the promise has settled if and only if the bus was torn down, the queue holds a stopping event, or some event answered or failed |
| Sends.RejectedSendGetsFailedTask | src/server/request_handler/default_request_handler.ts:390-453 | in every run, a blocking caller whose executor is rejected, having neither ended the turn nor asked for credentials, gets the synthesized task in state FAILED, given a store that works and keeps it |
| Sends.RejectedSendGetsTaskAtOnce | src/server/request_handler/default_request_handler.ts:390-453 | a non-blocking caller whose executor is rejected before publishing gets the synthesized task |
| Sends.InputRequiredTaskNeverSettles | src/server/request_handler/default_request_handler.ts:618-656 | the run in which an executor announces INPUT_REQUIRED in a task event: a blocking promise never settles, a non-blocking one has, with the task |
| Unlocked.StepIsSequentialIff | src/server/request_handler/default_request_handler.ts:167-190 | with locked and unlocked writers on one slot, a save keeps the store sequential if and only if it saves what it would have had it loaded just then |
| Unlocked.FollowUpIsUpToDateIff | src/server/request_handler/default_request_handler.ts:188-189 | for a follow-up that is: the stored task has not changed since its load |
| Unlocked.CancelIsUpToDateIff | src/server/request_handler/default_request_handler.ts:800-825 | for a direct cancel: it differs at most in its status or, having ended, is already what the cancel makes of it |
| Unlocked.CancelIs | src/server/request_handler/default_request_handler.ts:774-826 | a direct cancel is refused for a missing or ended task; otherwise it sets CANCELED with its message, which goes behind the history, and nothing else |
| Unlocked.UpdateInFlightDropsFollowUp | src/server/result_manager.ts:235-298 | an update loaded before and saved after a follow-up drops its message, unless it was there before or the update brings one with its id |
| Unlocked.NoOverlapNothingLost | src/server/request_handler/default_request_handler.ts:167-190 | in every run in which no save comes between another writer's load and save, the stored task is the sequential fold of all saves, locked and unlocked |
| Unlocked.FirstOverlapLosesIff | src/server/request_handler/default_request_handler.ts:188-189 | after any sequential run, a follow-up's save keeps it sequential if and only if nothing changed since its load |
| Translate.PartRoundTrip | src/compat/v0_3/translate/parts.ts:40-177 | a part survives v0.3 and back if and only if it has content v0.3 can carry, wrapped non-object values and the reserved flag included |
| Translate.PartNormalises | src/compat/v0_3/translate/parts.ts:40-177 | what one crossing yields, a second returns unchanged |
| Translate.MapRoundTrip | src/compat/v0_3/translate/messages.ts:40 | a list survives if and only if each element does |
| Translate.MessageRoundTrip | src/compat/v0_3/translate/messages.ts:22-71 | a message survives if and only if it has an id, a user or agent role and representable parts |
| Translate.ArtifactRoundTrip | src/compat/v0_3/translate/artifacts.ts:19-49 | an artifact survives if and only if its parts do |
| Translate.StatusRoundTrip | src/compat/v0_3/translate/tasks.ts:26-43 | a status survives if and only if its state is known, its timestamp not empty and its message representable; in particular the nine states map one to one |
| Translate.TaskRoundTrip | src/compat/v0_3/translate/tasks.ts:45-74 | a task survives if and only if it has a status and all it nests survives |
| Translate.TaskNormalises | src/compat/v0_3/translate/tasks.ts:45-74 | one crossing of a task is as good as any number |
| Translate.ToCompatStatusUpdate | src/compat/v0_3/translate/tasks.ts:89-106 | the computed `final` marks exactly the terminal states, which with INPUT_REQUIRED are exactly the statuses that stop a queue |
| Translate.StreamRoundTrip | src/compat/v0_3/translate/requests.ts:158-213 | a stream response survives if and only if it has a payload and its event is representable |
| Translate.StreamNormalises | src/compat/v0_3/translate/requests.ts:158-213 | one crossing of a stream response is as good as any number |
| TranslateBack.StatesAndRolesKeepTheirNames | src/compat/v0_3/translate/enums.ts:8-45 | the eight common states keep their names both ways, anything else is `unknown`, and every role but the user's is the agent's |
| TranslateBack.CompatPartIs | src/compat/v0_3/translate/parts.ts:107-177 | where the content, type, name and metadata of each kind of part go, the wrapping of other JSON values included |
| TranslateBack.CompatMessageIs | src/compat/v0_3/translate/messages.ts:46-71 | each field of a message under its own name, parts in order, what is empty omitted |
| TranslateBack.CompatArtifactIs | src/compat/v0_3/translate/artifacts.ts:30-49 | the same for artifacts |
| TranslateBack.CompatTaskIs | src/compat/v0_3/translate/tasks.ts:56-74 | the same for tasks, a missing status becoming a bare `unknown` |
| TranslateBack.CompatUpdatesAre | src/compat/v0_3/translate/tasks.ts:89-139 | the same for status and artifact updates |
| TranslateBack.LegacyPartRoundTrip | src/compat/v0_3/translate/parts.ts:40-177 | a v0.3 part survives v1.0 and back if and only if it is text, a file with bytes or link and no emptied name, or an object that is unflagged or exactly a flagged wrapper of a value that is none |
| TranslateBack.LegacyMessageRoundTrip | src/compat/v0_3/translate/messages.ts:22-71 | a v0.3 message survives if and only if it has an id, a known role, surviving parts and no optional field spelled as empty |
| TranslateBack.LegacyArtifactRoundTrip | src/compat/v0_3/translate/artifacts.ts:19-49 | the same for artifacts |
| TranslateBack.LegacyStatusRoundTrip | src/compat/v0_3/translate/tasks.ts:26-43 | a v0.3 status survives in every state, if its message does and its timestamp is not emptied |
| TranslateBack.LegacyTaskRoundTrip | src/compat/v0_3/translate/tasks.ts:45-74 | a v0.3 task survives if and only if all it nests does and neither list is emptied |
| TranslateBack.OmittedFlagsAreFalse | src/compat/v0_3/translate/tasks.ts:108-139 | an artifact update that omits `append` or `lastChunk` comes back with it as false, and survives unchanged if and only if it has both |
| TranslateBack.LegacyStreamRoundTrip | src/compat/v0_3/translate/requests.ts:158-213 | a v0.3 stream event survives if and only if its record does and `final` is what its state makes it |

## Left out

- HTTP, REST, gRPC and Express handlers, client transports, fetch, timers and abort signals: I/O around the core.
- Text decoding: the SSE parser is fed decoded string chunks; a response without a body, and cancelling the reader, are not modelled.
- JSON.stringify of SSE payloads: frames start from its text, assumed non-empty, without line feed and without a final carriage return.
- Base64, UTF-8, `localeCompare` and `Date`: the first two are taken as the identity (so a token that is not base64 is not told apart), the third is any strict total order, the last any partial map to milliseconds.
- Numbers in JSON are their ECMAScript text; NaN, infinities and the sign of zero are not modelled, nor are dates, functions or `undefined` inside a card.
- `AgentCard.fromJSON` / `toJSON` and all cryptography: canonicalization starts from the normalised JSON object.
- Fresh ids, error messages, console warnings and the timestamps of synthesized statuses: parameters or dropped.
- Aliasing: `structuredClone` makes records independent, so they are values. The places that edit a shared record, the history limit applied to an event's own task in a non-blocking send or in a stream whose store load came back empty, are modelled as limited copies.
- `_createRequestContext` beyond loading, checking and extending the task of a follow-up, `cancelTask` with a live bus, push configuration and push delivery. The theorems of `Linearization` are about `processEvent` writers; `Unlocked` adds the writers without a lock on one slot at a time.
- Events with an empty task id bypass the lock and never match a stored task; linearization covers events with an id.
- The await between attaching a stream's queue and starting its executor when a push configuration is saved: `Lifecycle` starts a turn in one step.
- Listener exceptions during a dispatch, and handlers that decide what to do only while they are called: `EventBus.Dispatch` takes each listener's operations as given.
- Consumers that leave in the middle of a stream: in `Lifecycle` such a consumer stops its queue (`StopConsumer`) but may go on to read what is left, so what is said of consumers that return by themselves is about those that keep pulling. `EventQueue` has the step itself (`Leave`).
- An `execute` that throws before it returns a promise: that error reaches the caller directly, without `catch` or `finally`.
- ResultManagers.ResultManager.ProcessEvent: load, merge and save are one uninterrupted step of the class; their interleaving is the subject of `Linearization`.
- EventBus.RegisteredAfter: speaks of listeners registered at most once, as all in `Lifecycle` are; `Lifecycle` uses sets of listeners rather than wrapper lists, and this lemma and `Lifecycle.FinishBusIsDispatch` connect the two. `EventBus.CountAfter` is the general form.
- SendMessage.Drain: takes the events a queue delivers until it ends; when it ends, and what then happens to the promise, is the subject of `Sends.SendSettlesIff`. A blocking caller's drain after its AUTH_REQUIRED snapshot continues in the same loop here; push notifications between events, whose failures the source swallows, are dropped.
- Translate: values outside the declared types (a part that is not an object, a missing parts array) are not modelled; base64 of raw bytes is the identity.
- Other translators (agent cards, security schemes, requests other than the stream response), error hierarchies, version and method tables: finite tables.
- That terminal states are absorbing in the store: the code does not enforce it; only the queue stops.
