# Configkit lifecycle: a verified model

Configkit keeps one live configuration per manager. Data is read from a source, goes through a pipeline of user
steps, and comes out as a snapshot or as a failed attempt; the manager publishes the one, records the other, tells
its observers, and answers status readers, operators and a reload command. This project models that machine in Dafny
and proves what holds over every run of it.

| file | what it is about |
|---|---|
| `Core.dfy`, `Errors.dfy` | the values; error trees, `errors.Is`, contexts, the public classification of failures |
| `Pipeline.dfy`, `LoadLaws.dfy` | the load pipeline, proved equal to a fold over its stage list, and what every load guarantees |
| `LoadSteps.dfy` | one load in terms of the user's own functions: which value went where, which call a failure is about |
| `Lifecycle.dfy` | the manager as a value: one accepted result, one admitted operation, a replay of many |
| `RunLaws.dfy`, `EventLaws.dfy`, `Views.dfy` | laws of every replay: history, last known good, apply chain, event protocol, counters, readers' views |
| `OperationLaws.dfy` | one admitted operation in terms of its caller's arguments, and what every record was earned by |
| `Records.dfy`, `Manager.dfy` | the manager as an object, with heap-allocated failures, an in-place history buffer and hostile observers |
| `Clients.dfy` | the object under a client and observers that overwrite everything they are ever given |
| `Concurrent.dfy`, `ConcurrentLaws.dfy`, `ConcurrentAlike.dfy` | any number of goroutines on one manager, step by step |
| `Async.dfy`, `AsyncLaws.dfy`, `AsyncProgress.dfy` | the asynchronous observer: a queue, an object, and any number of goroutines on it; and what gets done |
| `Composition.dfy` | the manager and its asynchronous observer together |
| `Reload.dfy`, `ReloadLaws.dfy`, `ReloadRuns.dfy` | the reload command against what the manager recorded, alone and among other callers |

What pins the layers down. `Perform` and the load's fold are specifications, so they are themselves proved right against
statements that name neither: `LoadSteps.Explained` speaks only of what the pipeline's functions returned on which
values under which context, `OperationLaws` ties each operation's reply and record to its caller's arguments by it, and
`ConcurrentLaws.RecordIsAlwaysEarned` says of every instant of every interleaving that nothing is on record, and so
nothing was ever published, that one admitted operation has not earned in that way.

How the layers fit. `Lifecycle.Perform` says what one admitted `Apply`, `Load` or `LoadFromSource` does to the state, the
event log, the accepted results and the source's call count. Two programs are proved against it: the methods of
`Managers.Manager`, which update fields and buffers in place, and the goroutines of `Concurrent`, which interleave
identifier, events, load, four groups of writes under the write lock, and readers that copy field by field. The laws are
then proved once, about replays of `Perform`, by induction over the operations.

Time, user steps and contexts. Moments are natural numbers; a clock, a source and a pipeline step are arbitrary
functions of the moment at which they are called, so they may change in any way. A step returns a value, an error or a
panic. A context is done from one moment on, with one cause; only where a lemma says so is the cause one of the two
standard ones, and only where a lemma says so is the clock non-decreasing. Attempt identifiers and the drop counter
wrap at 2^64. Synchronous observers may overwrite everything they are handed but do not call back into the lifecycle
methods, as `observer.go:53-55` demands.

What turned out not to hold as it might be read. The event log does not always give back a manager's status and
retained attempts, because a failure recorded through `Apply` emits no event: `EventLaws.ExternalFailureIsInvisible`
exhibits one. `EventLaws.LogRebuildsStatus` is the exact condition: it fails just when a valid failed result was handed
to `Apply` among the operations still in view, or is the latest failure of all. `Notify` is not free of waiting either, although
`observer_async.go:81` calls it non-blocking: a `Close` that has asked for the lock keeps it out.
`AsyncLaws.NotifyCanWait` is a run in which that happens; `NotifyWaitsOnlyForClose` and `LockIsGivenBack` say for whom
and for how long, and `NeverAskedAgain` that it does not happen twice. The `reload_failed` code looks like a catch-all;
`ReloadLaws.FallbackExactly` and `ReloadRuns.FallbackAmongOthers` show the one way to reach it.

## Model

| member | source | states |
|---|---|---|
| Errors.StageErrorPreservesIs | load.go:318-325 | adding a stage prefix keeps every `errors.Is` match of the chain, adds none but itself, and never hides or invents a recovered panic |
| Errors.IsIsMembership | attempt.go:29-35 | `errors.Is` finds its target exactly if it is among the errors that unwrapping leads to, joined errors included |
| Errors.IsPanicIsMembership | load.go:318-325 | `errors.As` finds a recovered panic exactly if one is among them |
| Errors.ClassSurvivesWrapping | load.go:131-138 | an error and its wrapped form agree on both context sentinels, so the public failure of a stage depends only on the class of what the step did |
| Errors.PanicIsNotContextError | load.go:312-335 | a step that panics fails as its stage, with `ErrLifecyclePanicked` and no added prefix, whatever the payload was |
| Pipelines.Load | load.go:150-266 | the program, stage by stage, returns exactly what one generic fold over the pipeline's stage list returns |
| Pipelines.FirstStopDecides | load.go:166-266 | a load reports the first context check or stage that stops it and no later one; if nothing does, it publishes the work of all its stages |
| LoadLaws.ApplicableShape | apply.go:62-109 | the validator accepts a result if and only if it is a complete success that agrees with its snapshot, or a complete failure |
| LoadLaws.LoadAlwaysValidates | load.go:146-266 | every result of a load satisfies the apply-time validator; the error is nil exactly for a success and explains the recorded failure |
| LoadLaws.SourceLoadAlwaysValidates | load.go:62-123 | the same for a load from a source that is absent, panics, fails, or returns anything |
| LoadLaws.LoadIsStamped | load.go:151-164 | whatever stops a load, its record carries the data's source and revision, the kind and start it was called with, an end inside the load, and a stage the load has; a snapshot carries the same end |
| LoadLaws.SourceLoadIsStamped | load.go:62-111 | a failed read is recorded under the announced metadata and no revision, a load under what the source read, or its own metadata where the data has none |
| LoadLaws.PublishedFromOneValue | load.go:214-252 | the redacted view and the checksum of a published snapshot were computed from exactly the value in it, and that value is what `Copy` returned |
| LoadLaws.AlikeOutcomesOfLoad | attempt.go:29-69 | two loads whose steps differ only in error text or panic payload, with the same context class, give identical results |
| LoadLaws.AlikeSourceLoads | load.go:62-138 | the same for loads from sources that differ only in error text or panic payload |
| LoadSteps.LoadIsExplained | load.go:150-309 | a published value was decoded from exactly the given data, defaulted, found valid and copied, in that order, each call under a context that had not ended and on the value of the call before; a failed attempt names the step that stopped it, all steps before it having passed, with that step's own error, its panic, its empty checksum, or the context's cause |
| LoadSteps.SourceLoadIsExplained | load.go:62-111 | a load from a source decodes the bytes and the revision that the source returned under the caller's context as they are, with the source's own description where the data has none; a missing source, a panic and a failed read are blamed on themselves |
| LoadSteps.EndedContextDecides | load.go:168-179 | a context that has ended when the load begins stops it there, with the context's cause |
| LoadSteps.NothingToBlame | load.go:166-266 | with a context that never ends, the required steps, and steps that always return, a load publishes |
| RunLaws.ApplyErrUnreachable | manager.go:400-403 | the validation of a managed result never fails: the error of a managed load is the load's own, and nil exactly when it published |
| RunLaws.StartAnnouncesRecord | manager.go:394-397 | `load_started` names the source and revision of the record to come: always for `Load`, and for `LoadFromSource` when the read fails; what it announces is the data's own, or what the source said about itself |
| RunLaws.PerformIsOneBlock | manager.go:307-460 | an admitted operation is an `Apply` of an invalid result, which does nothing, or adds one accepted result with the next identifier and one uninterleaved block of events |
| RunLaws.RememberKeepsSuffix | manager.go:545-561 | append, shift and truncate keep the history equal to the last entries of the full record, for every limit |
| RunLaws.CommitReflects | manager.go:331-369 | committing a result leaves exactly the state that the longer accepted history calls for, and links to the result before it |
| RunLaws.ReplayReflects | manager.go:331-369 | after any sequence of operations every field of the state is decided by the accepted history, which is a chain with gapless identifiers |
| RunLaws.StateIsClosedForm | manager.go:243-254 | unloaded, failed, loaded and degraded as a closed form of where the latest success stands in the accepted history |
| RunLaws.LastKnownGood | manager.go:345-360 | the current snapshot is that of the latest success, agrees with it in source, revision and checksum, and exists if and only if there was one |
| RunLaws.NeverUnloadedAgain | manager.go:243-254 | after any success the manager is loaded or degraded for ever |
| RunLaws.HistoryIds | manager.go:545-561 | exactly min(n, limit) attempts are retained, with consecutive identifiers ending at the newest |
| RunLaws.RetainedByOption | manager.go:160-187 | the option means what it says: 20 attempts are retained without it, none for zero or less, else that many |
| RunLaws.IdsDistinct | manager.go:572-580 | no identifier repeats within 2^64 attempts |
| RunLaws.ApplyChain | manager.go:341-364 | each accepted result's `Previous` is the `Current` of the one before it, starting from nil, and a failure leaves it as it was |
| RunLaws.ChangedIsTransitions | manager.go:354-356 | the number of `Changed` results is the number of checksum transitions in the published sequence, counting the first publication |
| OperationLaws.LoadReplyIsExplained | manager.go:388-410 | `Load`'s reply is explained by its caller's context, data and pipeline; a context that ended between admission and load fails it with its own cause and leaves the current snapshot |
| OperationLaws.SourceReplyIsExplained | manager.go:432-460 | the same for `LoadFromSource`, on what the source returned when it was read under the caller's context |
| OperationLaws.LoadIsRecorded | manager.go:432-460 | what a managed load returns is what it recorded, with the failure its error calls for |
| OperationLaws.ApplyIsRecorded | manager.go:307-321 | `Apply` accepts exactly the complete results; one is recorded as the caller gave it but for the identifier, and becomes current if it is a success; for any other the caller gets the zero result and an error that matches `ErrInvalidLoadResult`, and nothing happened |
| OperationLaws.RecordedFailureIsPublic | attempt.go:29-69 | the recorded failure is given by a table over the stage, unless the error is a context sentinel or the source was missing; the catch-all code is never recorded |
| OperationLaws.EventsAreStamped | manager.go:462-526 | each event of an operation carries the time at which it was sent |
| OperationLaws.SourceIsCalled | manager.go:432-460 | an operation calls a source only if it was given one: once for its metadata, once more to read it unless that panicked |
| OperationLaws.RecordIsEarned | manager.go:307-460 | after any sequence of operations every accepted result is what one of them made of its own arguments |
| EventLaws.LogIsRead | manager.go:462-526 | a reader that knows only the protocol never finds it broken, and learns every accepted result except failures applied from outside, and the current snapshot |
| EventLaws.LogShowsAccepted | manager.go:476-526 | the events show the accepted results in order without the failures applied from outside, so all of them if and only if no `Apply` was admitted with a valid failed result |
| EventLaws.LogRebuildsStatus | manager.go:476-526 | within 2^64 attempts, folding the events gives the lifecycle status (state, current, last attempt, success, failure, apply) and the retained history exactly, if and only if no valid failed result was applied among the operations still in view (the last attempt and the retained ones) and the latest failure of all was not one either |
| EventLaws.ExternalFailureIsInvisible | manager.go:505-508 | a failure applied from outside changes the state and leaves no event |
| EventLaws.EventsAreTruthful | manager.go:582-590 | at every observer call the live state of the manager is the state the event reports |
| EventLaws.ObserveAll | otel/observer.go:154-185 | the metrics observer, event by event in place, ends with the counters that the conservation law is about |
| EventLaws.CountersBalance | otel/observer.go:154-185 | started = completed = managed loads; failed = those that did not publish; published = completed - failed + successful external applies; changed = checksum transitions |
| EventLaws.AlikePerform | attempt.go:29-69 | an operation's effect on state, records, events and source calls does not depend on error text or panic payload |
| EventLaws.AlikeReplays | attempt.go:29-69 | nor does that of any sequence of operations |
| Views.ReadinessFromHistory | opskit.go:203-212 | ready if and only if something was published and the latest result published or degraded counts as ready |
| Views.ViewIsHistory | manager.go:190-241 | every part of a view is decided by the accepted history: the latest attempt, success, failure and apply, the retained attempts, and the redacted view of the latest success |
| Views.InspectionShowsView | opskit.go:85-127 | an inspection shows all of the view it was made from, each attempt in summary, and a degraded manager as ready unless it was told otherwise |
| Views.InspectionIsCoherent | opskit.go:66-103 | the parts of one inspection agree with each other and with the accepted history |
| Views.UpdatedAtFromHistory | opskit.go:250-264 | the status timestamp from the accepted history, through all three fallbacks: acceptance time, end of the attempt, end of the load behind the current snapshot, none |
| Records.CloneEvent | manager.go:592-604 | an equal event made of new objects only |
| Records.CloneRedacted | snapshot.go:95-105 | a fresh map with the same entries, filled in a loop; nil stays nil |
| Records.NewSnapshot | snapshot.go:65-71 | the snapshot has its own copy of the redacted view |
| Records.ShiftDown | manager.go:559-560 | the overlapping copy reads every element before it writes it: the front becomes the old tail |
| Records.AppendBounded | manager.go:554-560 | append, shift and cut leave the last `limit` elements of the appended sequence at the front of the buffer |
| Records.AttemptSlice.Record | manager.go:545-561 | the history buffer shows exactly the remembered attempts, through clones the caller cannot reach |
| Records.AttemptSlice.Clones | manager.go:537-543 | the returned attempts equal the history and share nothing with it |
| Managers.TellAll | manager.go:582-590 | every observer is told the same event once per registration, whatever the ones before it did to theirs |
| Managers.Manager.constructor | manager.go:160-187 | a new manager is the initial state with its limit normalised: default 20, zero or less none |
| Managers.LifecycleAdmission.Acquire | manager.go:48-72 | a caller has to wait exactly while another has the token and its own context is live, gets the token exactly when it need not wait and its context is live at the last check, and otherwise leaves the channel as it was |
| Managers.AdmissionByContext | manager.go:48-72 | with the token free a caller is admitted exactly if its context outlasts the last check; with the token taken it waits exactly if its context outlasts the select; and a refusal is its own context's |
| Managers.Manager.ApplyLoad | manager.go:331-369 | the new state is the committed one, the returned result is the one stored, and they share no object |
| Managers.Manager.ApplyValidated | manager.go:323-329 | a valid result is committed; an invalid one changes nothing and returns the zero result and an error |
| Managers.Manager.Load | manager.go:388-410 | refused or still waiting and nothing changed, or exactly one replayed load; the reply is fresh, unreachable from the manager and shared with no observer; every observer was told exactly what was logged meanwhile, once per registration, and no two were given the same object |
| Managers.Manager.LoadFromSource | manager.go:432-460 | the same, and the source is called exactly as often as the replay says, not at all when refused |
| Managers.Manager.ApplyExternal | manager.go:307-321 | `Apply`: refused or still waiting and nothing changed, or exactly one replayed apply; the caller's own result stays unshared; observers as for `Load` |
| Managers.Manager.LifecycleStatus | manager.go:190-241 | the status of the state, in fresh objects |
| Managers.Manager.Attempts | manager.go:201-206 | the retained attempts, in fresh objects |
| Managers.Manager.Inspect | opskit.go:66-103 | refused with the context's error, or the inspection of one state, with readiness as the manager was configured, in fresh objects |
| Managers.LoadWithMetadata | load.go:62-111 | the source is read only if it is there and its metadata could be read; its failures keep their own stage and code |
| Clients.ServeHostile | manager.go:226-241 | non-aliasing over a run: a client and observers keep everything they are ever given and overwrite all of it between any two calls, and the manager stays valid with exactly the run the calls call for, and every observer was told exactly what that run logged |
| Concurrent.MoveExplains | manager.go:388-460 | each step of an admitted goroutine leaves exactly the part of the sequential operation done so far |
| Concurrent.WriteExplains | manager.go:331-369 | so does each group of writes under the lock, down to the returned apply result |
| Concurrent.TokenStep | manager.go:48-76 | taking and giving back tokens keeps their number equal to the number of holders, at most one |
| Concurrent.HolderStep | manager.go:388-460 | a holder's step keeps the memory equal to the replay plus the holder's own part |
| Concurrent.ReleaseStep | manager.go:74-76 | releasing completes the operation as the next one of the replay, with the replay's reply |
| Concurrent.WriterStep | manager.go:334-366 | writes happen where nobody reads, and unlock only a settled state |
| Concurrent.ViewCompletes | opskit.go:71-82 | fields copied one by one under one read lock are the view of one prefix of the accepted results |
| Concurrent.ExecKeeps | manager.go:48-76 | the whole invariant holds after every sequence of actions of any number of goroutines |
| ConcurrentLaws.Serializability | manager.go:48-76 | whenever the token is free, state, log, accepted results and source calls are those of the admitted operations replayed in admission order |
| ConcurrentLaws.ReceivesNeverBlock | manager.go:48-76 | tokens in the channel = goroutines between send and receive, never more than one, so neither receive can block and the counter has one user |
| ConcurrentLaws.RepliesAreSequential | manager.go:307-460 | each returned call is exactly one operation of the replay and got the replay's reply, and each operation of the replay is such a call |
| ConcurrentLaws.WaitingIsInert | manager.go:48-72 | a step before admission changes no state, identifier, event, record or source call |
| ConcurrentLaws.TurnedAwayLeavesNoTrace | manager.go:49-70 | a cancelled caller was cancelled by its own context, was never admitted, and is no operation of the replay |
| ConcurrentLaws.RealTimeOrder | manager.go:48-76 | a call that returned before another was made comes before it in the replay |
| ConcurrentLaws.AlwaysBeginsAReplay | manager.go:331-526 | at every instant the log and the accepted results begin those of a sequential replay |
| ConcurrentLaws.CompletedBegin | manager.go:331-526 | at every instant what the completed operations logged and recorded begins the log and the accepted results |
| ConcurrentLaws.RecordIsAlwaysEarned | manager.go:307-460 | at every instant of every interleaving each accepted result is what one admitted operation made of its own arguments |
| ConcurrentLaws.LogIsAlwaysInProtocol | manager.go:462-590 | at every instant the log follows the protocol, every event told the truth, and the n-th accepted attempt has identifier n |
| ConcurrentLaws.QuiescentLog | otel/observer.go:154-185 | with the token free the log gives the current snapshot and the counters balance, in any interleaving |
| ConcurrentLaws.ReadersSeePrefixes | manager.go:190-241 | every view of every reader is, in all its parts and with the typed snapshot, the view after one prefix of the accepted results, and a reader's views never go back |
| ConcurrentLaws.ReadsAreFresh | manager.go:190-241 | a view obtained after some instant reflects everything accepted by then |
| ConcurrentLaws.WriterExcludesReaders | manager.go:334-366 | no two writers, and no reader beside a writer |
| ConcurrentLaws.SomebodyMoves | manager.go:48-76 | no deadlock: while any call or read is under way, some goroutine that is under way can move |
| ConcurrentLaws.MovesRunOut | manager.go:307-460 | no livelock: every move of a call or a read under way brings it nearer its end, and nobody else's step touches it |
| ConcurrentLaws.EndedCallerLeaves | manager.go:48-72 | a caller whose context has ended never waits: its next step turns it away, or takes a free token that the one after gives back |
| ConcurrentLaws.EventsInTimeOrder | manager.go:462-526 | with a non-decreasing clock, events are stamped in the order in which observers get them |
| ConcurrentAlike.ErrorTextStaysInside | attempt.go:29-69 | two concurrent runs whose calls differ only in error text or panic payload go through the same states, logs, orders and readers' views |
| AsyncObservers.SendAppends | observer_async.go:106-110 | a send that goes through puts the event behind everything accepted before it, also when it is handed to a parked worker |
| AsyncObservers.WorkTakesOldest | observer_async.go:156-170 | a turn of the worker delivers the oldest pending event or nothing, a panic of the observer loses no event and does not stop the worker, a worker that finds nothing stands ready for the next send, and on a closed channel every turn, the recover included, brings it nearer the end |
| AsyncObservers.AsyncObserver.constructor | observer_async.go:56-76 | an empty open queue of the configured size: 64 by default, none for a negative size |
| AsyncObservers.AsyncObserver.Notify | observer_async.go:91-114 | the event is queued through a clone, or dropped and counted, without waiting; a nil observer counts nothing; the caller's objects are neither kept nor changed |
| AsyncObservers.AsyncObserver.Deliver | observer_async.go:164-170 | the oldest event is delivered once, and whatever the observer does to it, panicking included, the rest of the queue is unchanged |
| AsyncObservers.AsyncObserver.Close | observer_async.go:132-154 | delivered ++ pending does not change; nil means everything pending was delivered; an error is the context's |
| AsyncLaws.OfferIsSafe | observer_async.go:98-113 | a sender that found the flag clear sends on an open channel |
| AsyncLaws.ShutIsSafe | observer_async.go:140-146 | the channel is closed by the one goroutine that runs the once |
| AsyncLaws.ExecKeeps | observer_async.go:91-162 | locks, once, flag, queue and counters agree after every sequence of steps of any number of goroutines and the worker |
| AsyncLaws.ChannelUseIsSafe | observer_async.go:91-154 | no interleaving sends on the closed channel or closes it twice |
| AsyncLaws.Conservation | observer_async.go:91-114 | accepted = delivered ++ in flight ++ queued, in order, one event a call; accepted + dropped = decided calls, including no buffer and no observer |
| AsyncLaws.FirstInFirstOut | observer_async.go:106-161 | events accepted before another call began are delivered before its event |
| AsyncLaws.ClosedIsFinal | observer_async.go:101-104 | nothing is accepted once the flag is set |
| AsyncLaws.CloseDrains | observer_async.go:148-153 | `Close` returning nil means nothing is queued or in flight, everything ever accepted was delivered, and that stays so |
| AsyncLaws.OfferIsDecided | observer_async.go:106-110 | an offer is accepted if and only if the buffer has room or the worker is parked; without a buffer, if and only if it is parked |
| AsyncLaws.NotifyWaitsOnlyForClose | observer_async.go:98-146 | a `Notify` waits if and only if a `Close` has asked for the lock and not given it back; that is the one goroutine inside the once, and it or a `Notify` inside the lock can move, without the worker or the wrapped observer |
| AsyncLaws.NotifyCanWait | observer_async.go:79-98 | with a `Notify` inside the lock and a `Close` that has asked for it, a second `Notify` stays where it is |
| AsyncLaws.PatienceFalls | observer_async.go:98-146 | while the lock is asked for or held no action adds to the steps it still needs, and every step of the writer or of a reader inside takes one away |
| AsyncLaws.LockIsGivenBack | observer_async.go:98-146 | a waiting `Notify` waits for at most four such steps of the writer and four of each reader inside, whatever else happens |
| AsyncLaws.NeverAskedAgain | observer_async.go:140-146 | once the flag is set and the lock is free, it is free after any further actions, so that no `Notify` waits |
| AsyncLaws.RankFalls | observer_async.go:156-162 | on a closed channel no step adds work and every turn of the worker removes some |
| AsyncLaws.CloseLeadsToExit | observer_async.go:132-162 | after closing, the worker is gone after at most as many turns as the measure says, with everything delivered |
| AsyncProgress.WorkerCatchesUp | observer_async.go:156-170 | while the channel is open, enough turns leave the worker waiting in its receive, whatever panics |
| AsyncProgress.EventsGetThrough | observer_async.go:91-170 | before anybody closes, for every buffer size including none: three turns for each event still owed and two more deliver all that was owed, then the next call's event is accepted, and one more turn delivers it |
| AsyncProgress.CloseReturns | observer_async.go:132-162 | with no other call in progress a `Close` whose context never ends returns nil after seven steps of its own, the worker's turns, and one step more, and then everything accepted has been delivered |
| AsyncProgress.SelectIsLeft | observer_async.go:148-153 | a waiting `Close` leaves as soon as the worker is gone or its context has ended, with nil or its context's error |
| Compositions.DeliveriesAreTheLog | observer_async.go:79-81 | a manager with an asynchronous observer, any interleaving: delivered ++ in flight ++ queued is the manager's own log in order without the dropped events; with a free token that log is the one of the replay |
| Compositions.ManagerIsAsAlone | observer_async.go:79-81 | the manager's state, log, records and goroutines are, after any interleaving, those it reaches alone by the steps that were not held up, so that every law of the manager alone carries over |
| Compositions.ObserverCanRebuild | observer_async.go:128-154 | with nothing dropped, a nil `Close` and a free token, the wrapped observer got the whole log, and can rebuild from it exactly what the log can |
| Reloads.ReloadCommandHandler.HandleCommand | reload_command.go:170-214 | the handler does to manager, source and answer exactly what the specification says, and has no answer yet exactly while it waits for the token; a rejection leaves manager, history buffer, observers and source as they were |
| ReloadLaws.RejectedIsInert | reload_command.go:176-191 | rejected if and only if source, a required step or the command name is wrong, with the message and the failure of what is missing; then nothing changed and the source was not called |
| ReloadLaws.CompletedIsPublished | reload_command.go:237-256 | completed if and only if this reload published, and the payload is its own attempt and apply result and the configuration now current |
| ReloadLaws.FailedPreservesCurrent | reload_command.go:195-212 | a failed command leaves the current configuration, and shows the code of the recorded attempt whenever one was recorded |
| ReloadLaws.OperatorMessages | reload_command.go:195-212 | the message the operator reads agrees with the code, and shows no text but the recorded failure's |
| ReloadLaws.RecordedReasons | reload_command.go:263-282 | an attempt recorded through the command never failed for a reason the command rejects beforehand |
| ReloadLaws.FallbackExactly | reload_command.go:284-289 | the `reload_failed` code is shown exactly when admission was refused with an error that is no context sentinel |
| ReloadLaws.NoFallbackUnderStandardContexts | reload_command.go:291-315 | with standard contexts it is never shown, and a refused command says what its context said |
| ReloadRuns.AnswerIsRecorded | reload_command.go:195-256 | among any other callers: a command that was admitted has its own entry in the record and answers from it: completed if and only if that entry published, with its payload, otherwise failed with its code and the current configuration left as it was |
| ReloadRuns.EachItsOwn | reload_command.go:195-212 | two commands never answer from the same entry, and the entries are in the order of the replay |
| ReloadRuns.TurnedAwayIsInert | reload_command.go:195-212 | a command that was turned away was never admitted, and its code is decided by its own context's cause |
| ReloadRuns.FallbackAmongOthers | reload_command.go:284-315 | the operator sees `reload_failed` if and only if the command was turned away by a cause that is neither a cancellation nor a deadline |

## Left out

- Source implementations (`BytesSource`, `FileSource`), SHA-256, JSON decoding: sources, decoders and checksummers are arbitrary functions; `isNilSource` is a source that is absent.
- Names, labels, messages, attributes, JSON field names and the option closures: plain string plumbing, except the history limit, degraded readiness, the command name and the buffer size; the `ComponentName` of events is a constant of the manager and is not a field of the model.
- The HTTP, Servekit, Workerkit and slog adapters, spans, durations and metric attributes: only the counter switch of the metrics observer is modelled.
- Custom `Is` and `As` methods of user errors: an error matches what it wraps or joins.
- Observers that call the lifecycle methods, and observers that never return: the first is forbidden by the source, the second is a schedule in which the observer's step never comes; safety is proved, fairness is not claimed.
- The loop over observers inside one notification is one step of the interleaving model; as a loop it is `Managers.TellAll`. In `Composition.dfy` the asynchronous observer is the one whose calls are followed.
- Inside a load the interleaving model has two steps, its start and its end: other goroutines run in between, and user steps may behave differently at every moment, but the moments of the stages of one load are numbered one after the other.
- The lazily created admission channel (`once.Do` in `acquire`): the channel exists from the start.
- Nil contexts and nil receivers: the source says that a nil context may panic, and a nil receiver is a constant answer.
- The stored record pointers (`lastAttempt` and its siblings) are structs in optional fields of the object model: what is tracked on the heap are the failures and metadata cells they point to, and the clones handed out; a snapshot's private map is a value, because nothing writes it after construction.
- AsyncObservers.AsyncObserver.Close: as a method of the object it lets only the worker run while it waits; other goroutines' steps in between are the subject of `AsyncLaws`.
- A caller that has to wait for the token: the methods of the object say that it has no reply yet and changed nothing; how it goes on is the subject of `Concurrent`.
- The order in which blocked goroutines are served: the model allows any; of the read/write lock it has that a writer that has asked keeps new readers out.
