# Watchlist runtime: a Dafny model

The project models the concurrent runtime, the device store and the MQTT request path of the Watchlist
programs, and proves what they promise about every run and every input.

* **Schedulers.** `AsyncEventLoop` is a transition system: one step per `mutex_` critical section,
  `execution_gate_` an owned recursive lock, notifications that a thread still owes part of its state.
  `AsyncEventLoopPlaces` proves where frames are, `AsyncEventLoopSafety` what holds in every run,
  `AsyncEventLoopEffects` what single steps do and that an open loop takes what is due,
  `AsyncEventLoopExit` what is settled when the worker has left, `AsyncEventLoopShutdown` that it does leave,
  `AsyncEventLoopQueues` holds the object the mutex guards, `EventLoopCoroutine` proves that the delay-only
  loop is a restriction of the larger one, `CoroutineTask` is the task state.
* **Draining executors.** `ThreadPoolManager`, `EventLoopGenerator`, `EventLoopGeneratorSafety` and
  `EventLoopGeneratorOutcomes` (what each result reports).
* **Device pipeline.** `DeviceMonitor` (the view and the store's commands as functions), `DeviceOperations`
  (what each of them does), `DeviceReplica`
  (replaying the view's commands), `DeviceSnapshots` (id-sorted contents), `DevicePipeline` (UI, pump and
  worker interleaved), `DeviceStaleness` (when that fails), `DeviceObjects` (the objects updated in place).
* **Validators.** `Utf8` against sections 3 and 4 of RFC 3629, `Addresses` against section 2.2 of RFC 4291
  and section 2.1 of RFC 1123, `DeviceItems` for whole items. `Text` holds splitting and joining.
* **MQTT.** `MqttTopics`, `JsonText` and `JsonObjects` (printer, and a reader by sections 4 and 7 of
  RFC 8259), `MqttMessages`, `MqttWire` (the literal names), `RequestDispatcher` (on top of the pool model),
  `MqttService`.

Bytes are `char`s by their code, character classes are ASCII, time is an integer clock that only moves
forward. A wake-up may be spurious everywhere. Loops and objects of the source are methods and classes here,
each proved against a function or predicate; the theorems are about those.

Where the code differs from what one might expect:

* `TopicMatches` differs from sections 4.7.1.2 and 4.7.2 of MQTT 3.1.1; `MqttTopics.DifferencesFromTheStandard`
  shows that the parent level of a trailing `#` and topics starting with `$` are the only differences, and
  `MqttTopics.BothDifferencesOccur` that both are real.
* A request that is printed is not always readable again: raw control bytes are not escaped and bytes are not
  checked to be UTF-8. `MqttMessages.RoundTrip` gives the exact condition and
  `MqttMessages.ControlByteIsNotReadBack` such a request.
* Re-subscription relies on released clients being silent. `MqttService.MissesNoneIffNeverBlind` gives the
  exact condition for any behaviour of the clients, and `MqttService.LateCallbackMisses` a run that misses a topic.
* A handler that throws leaves its request without an acknowledgement: `RequestDispatcher.DrainedMeansExactlyOne`
  says that nothing else does, `RequestDispatcher.ThrowingLeavesUnanswered` gives the runs.
* The worker may leave `run` before `stop` has cancelled its list (`AsyncEventLoopExit.ExitCanComeFirst`), so its
  leaving alone does not mean that everything is settled: `AsyncEventLoopExit.AcceptedPendingIffCancelling` gives
  the exact condition, and `AsyncEventLoopExit.StoppedAndExitedIsSettled` what a caller can rely on, namely that
  some `stop` has returned.
* The view validates less than the store, so a replay can fail: `DeviceReplica.ReplayAgrees` says exactly when,
  `DeviceReplica.SomeDraftIsRefused` and `DeviceReplica.RefusedDraftFails` that it happens.
* The view never shows an id twice, and still the store can refuse an Add as a duplicate: the view need not show
  what the store holds. `DeviceStaleness.SucceedsIffUnspoiled` and `DeviceStaleness.FailsIffSpoiled` say exactly
  when the pipeline fails. It happens before the first snapshot (`DeviceStaleness.EarlyAddFails`) and after a
  snapshot that is older than the user's last commands (`DeviceStaleness.StaleSnapshotFails`);
  `DeviceStaleness.FreshRunsNeverFail` is one discipline that avoids it.

## Model

| member | source | states |
|---|---|---|
| `CoroutineTask.TaskState.Finish` | src/Utils/Concurrency/CoroutineTask.hpp:84-95 | a pending task takes the new status and exception; a settled one keeps its own |
| `CoroutineTask.TaskState.Succeed` | src/Utils/Concurrency/CoroutineTask.hpp:29-32 | settles as succeeded if still pending |
| `CoroutineTask.TaskState.Fail` | src/Utils/Concurrency/CoroutineTask.hpp:34-37 | settles as failed with the exception if still pending |
| `CoroutineTask.TaskState.Cancel` | src/Utils/Concurrency/CoroutineTask.hpp:39-42 | settles as cancelled if still pending |
| `CoroutineTask.TaskState.Get` | src/Utils/Concurrency/CoroutineTask.hpp:63-81 | what a waiter on a settled task gets: nothing, the exception, or the cancellation |
| `AsyncEventLoopQueues.LoopQueues.EnqueueAfter` | src/Utils/Concurrency/AsyncEventLoop.hpp:324-340 | refused when not accepting; else one entry more, until the clock and the delay, a negative delay counting as none, under the next number |
| `AsyncEventLoopQueues.LoopQueues.EnqueueReady` | src/Utils/Concurrency/AsyncEventLoop.hpp:342-353 | refused when not accepting; else the frame is on top of the ready stack |
| `AsyncEventLoopQueues.LoopQueues.EnqueueEventWait` | src/Utils/Concurrency/AsyncEventLoop.hpp:355-366 | refused when not accepting; else the frame is last among the name's waiters |
| `AsyncEventLoopQueues.LoopQueues.EmitEvent` | src/Utils/Concurrency/AsyncEventLoop.hpp:173-200 | all waiters of the name become ready in order, exactly they are given the event, and the name is gone; says whether a notification is owed |
| `AsyncEventLoopQueues.LoopQueues.Close` | src/Utils/Concurrency/AsyncEventLoop.hpp:203-237 | hands over exactly the delayed, ready and waiting frames in order and closes the loop; does nothing the second time |
| `AsyncEventLoopQueues.LoopQueues.TakeReady` | src/Utils/Concurrency/AsyncEventLoop.hpp:389-391 | takes the top of the ready stack, when there is one |
| `AsyncEventLoopQueues.LoopQueues.TakeDue` | src/Utils/Concurrency/AsyncEventLoop.hpp:400-403 | takes the least delayed entry exactly when it is due |
| `AsyncEventLoopPlaces.StepPlaced` | src/Utils/Concurrency/AsyncEventLoop.hpp:173-423 | every step of any thread keeps each frame in at most one place, and in one while it is suspended and unsettled |
| `AsyncEventLoopSafety.EveryFrameInOnePlace` | src/Utils/Concurrency/AsyncEventLoop.hpp:173-423 | in every state of every run a pending frame occurs exactly once over all queues, the worker's hand, the operations in progress and the running bodies (there iff not suspended); a settled one nowhere; suspensions and resumptions balance |
| `AsyncEventLoopSafety.StopIsABarrier` | src/Utils/Concurrency/AsyncEventLoop.hpp:203-237 | once the loop is closed no frame is resumed for the rest of the run |
| `AsyncEventLoopSafety.StopReturnsQuiescent` | src/Utils/Concurrency/AsyncEventLoop.hpp:203-237 | when stop returns the loop is closed, no other thread is cancelling, and no callback runs unless it called stop itself |
| `AsyncEventLoopExit.PendingIffCarried` | src/Utils/Concurrency/AsyncEventLoop.hpp:253-297 | when the worker has left run, a frame is suspended and pending iff some thread carries it through an offer, a refusal or a stop's list |
| `AsyncEventLoopExit.AcceptedPendingIffCancelling` | src/Utils/Concurrency/AsyncEventLoop.hpp:203-237 | when the worker has left run, some accepted frame is unsettled iff a stop is still going through its list |
| `AsyncEventLoopExit.StoppedAndExitedIsSettled` | src/Utils/Concurrency/AsyncEventLoop.hpp:203-237 | once any stop has returned and the worker has left run, every frame ever accepted is settled; pending are exactly the frames still being offered or refused |
| `AsyncEventLoopExit.ExitCanComeFirst` | src/Utils/Concurrency/AsyncEventLoop.hpp:379-387 | a run in which the worker leaves while a task that stop has yet to cancel is pending |
| `AsyncEventLoopShutdown.ClosingMakesProgress` | src/Utils/Concurrency/AsyncEventLoop.hpp:120-126 | in a closed loop every step but a new call or the clock decreases a measure over the worker, the operations and the running bodies; a new call adds at most three |
| `AsyncEventLoopShutdown.ClosingIsBounded` | src/Utils/Concurrency/AsyncEventLoop.hpp:120-126 | in any run the steps after closing are bounded by the measure and three for each new call |
| `AsyncEventLoopShutdown.ClosingNeverStuck` | src/Utils/Concurrency/AsyncEventLoop.hpp:120-126 | until the worker has left run some such step is possible, without a spurious wake-up or the clock |
| `AsyncEventLoopShutdown.ClosingEnds` | src/Utils/Concurrency/AsyncEventLoop.hpp:120-126 | a run of the closed loop with no such step left has brought the worker out of run, within the bound, so the destructor's join ends when callbacks do |
| `AsyncEventLoopSafety.NeverOversleeps` | src/Utils/Concurrency/AsyncEventLoop.hpp:379-405 | asleep with no notification owed: not stopping, nothing ready, and the wake time no later than any queued deadline |
| `AsyncEventLoopSafety.TakesTheEarliestDue` | src/Utils/Concurrency/AsyncEventLoop.hpp:312-317 | the delayed frame taken is due and has the least deadline and sequence number |
| `AsyncEventLoopSafety.NeverResumesEarly` | src/Utils/Concurrency/AsyncEventLoop.hpp:393-420 | a resumption is of a pending suspended frame whose last deadline has passed |
| `AsyncEventLoopEffects.DelayIsQueued` | src/Utils/Concurrency/AsyncEventLoop.hpp:324-340 | in any run, an accepted offer with a delay adds exactly one queue entry, for the frame, until the clock of that step and the delay (at once when negative), under the next number; the other queues stay |
| `AsyncEventLoopEffects.DelayIsKept` | src/Utils/Concurrency/AsyncEventLoop.hpp:324-340 | the first resumption after such an offer happens at a clock that has moved on by at least the delay |
| `AsyncEventLoopEffects.ReadyIsQueued` | src/Utils/Concurrency/AsyncEventLoop.hpp:342-353 | an accepted offer to run at once puts the frame on top of the ready stack and owes a notification |
| `AsyncEventLoopEffects.WaiterIsQueued` | src/Utils/Concurrency/AsyncEventLoop.hpp:355-366 | an accepted offer to wait puts the frame last among the waiters of the name, and notifies nobody |
| `AsyncEventLoopEffects.OfferIsRefused` | src/Utils/Concurrency/AsyncEventLoop.hpp:253-259 | a closed loop changes no queue and leaves the frame to be cancelled |
| `AsyncEventLoopEffects.EventReadiesWaiters` | src/Utils/Concurrency/AsyncEventLoop.hpp:173-200 | an event puts exactly the waiters of its name on the ready stack in order; a closed loop or an unknown name changes nothing |
| `AsyncEventLoopEffects.EndSettles` | src/Utils/Concurrency/CoroutineTask.hpp:136-137 | a body that ends settles its task for the rest of the run, as failed iff it threw and as succeeded iff it returned |
| `AsyncEventLoopEffects.CancelSettles` | src/Utils/Concurrency/AsyncEventLoop.hpp:233-237 | a refused frame, a frame of a stop's list and a frame in a stopping worker's hand are cancelled for the rest of the run |
| `AsyncEventLoopEffects.OpenLoopTakesWhatIsDue` | src/Utils/Concurrency/AsyncEventLoop.hpp:379-405 | in any run, with the loop open, the worker free and something ready or due, at most five steps of the worker alone take the top of the ready stack, or when nothing is ready the due entry with the least deadline and number, and change nothing else |
| `AsyncEventLoopEffects.OpenLoopResumesWhatItHolds` | src/Utils/Concurrency/AsyncEventLoop.hpp:407-420 | with the loop open and the gate free, three more steps of the worker resume exactly the frame it holds |
| `AsyncEventLoopSafety.OutcomeAgreesWithCallback` | src/Utils/Concurrency/AsyncEventLoop.hpp:140-150 | a one-shot task has succeeded iff its callback completed, failed iff it threw, and is cancelled only if it never started; it runs at most once |
| `AsyncEventLoopSafety.SettlesOnce` | src/Utils/Concurrency/CoroutineTask.hpp:84-95 | a settled task never changes again in the run |
| `EventLoopCoroutine.DelayRunIsRun` | src/Utils/Concurrency/EventLoopCoroutine.hpp:57-183 | every run of the delay-only loop, with its own sections, is a run of the larger loop with an empty ready list and no waiters |
| `EventLoopCoroutine.DelayLoopGuarantees` | src/Utils/Concurrency/EventLoopCoroutine.hpp:144-183 | in the delay-only loop, with no notification owed, a worker asleep has an empty queue or wakes no later than any deadline; a closed loop resumes nothing |
| `EventLoopCoroutine.DelayLoopTakesWhatIsDue` | src/Utils/Concurrency/EventLoopCoroutine.hpp:144-183 | with the delay-only loop open, its worker free and some deadline passed, at most five steps of its own sections take the due entry with the least deadline and number |
| `EventLoopCoroutine.DelayQueue.EnqueueAfter` | src/Utils/Concurrency/EventLoopCoroutine.hpp:126-142 | refused when not accepting; else one entry more, until the clock and the delay, a negative delay counting as none, under the next number |
| `EventLoopCoroutine.DelayQueue.Close` | src/Utils/Concurrency/EventLoopCoroutine.hpp:57-78 | hands over all queued frames, earliest first, and closes the loop once |
| `EventLoopCoroutine.DelayQueue.TakeDue` | src/Utils/Concurrency/EventLoopCoroutine.hpp:163-166 | takes the least entry exactly when it is due |
| `ThreadPoolManager.ConstructorsMakeUsablePools` | src/Utils/Concurrency/ThreadPoolManager.hpp:77-126 | the explicit constructor accepts a count iff a pool of that many workers is a valid start, and keeps the count; the default one always makes a valid start, of the hardware's count or one |
| `ThreadPoolManager.NoWorkersNoProgress` | src/Utils/Concurrency/ThreadPoolManager.hpp:114-120 | why zero is refused: without workers no step ever starts a task, accepted ones only pile up |
| `ThreadPoolManager.StepInv` | src/Utils/Concurrency/ThreadPoolManager.hpp:135-203 | every step keeps: no lost wake-up, accepted = started then queued, starts accounted by finishes and hands |
| `ThreadPoolManager.NeverLosesAWakeup` | src/Utils/Concurrency/ThreadPoolManager.hpp:152-203 | with a sleeper, queued tasks are at most awake idle workers plus notifications in flight; with none in flight some worker is not asleep |
| `ThreadPoolManager.StartsInOrder` | src/Utils/Concurrency/ThreadPoolManager.hpp:164-198 | tasks start in the order accepted; what has not started is the queue |
| `ThreadPoolManager.DrainsExactlyOnce` | src/Utils/Concurrency/ThreadPoolManager.hpp:178-203 | when all workers have exited each accepted task finished exactly once, nothing else did |
| `ThreadPoolManager.StoppingMakesProgress` | src/Utils/Concurrency/ThreadPoolManager.hpp:135-150 | every productive step of a stopping pool makes the remaining work smaller; a rejected enqueue changes nothing |
| `ThreadPoolManager.StoppingIsBounded` | src/Utils/Concurrency/ThreadPoolManager.hpp:135-150 | the productive steps of any run after stop are at most what remained then |
| `ThreadPoolManager.StoppingNeverStuck` | src/Utils/Concurrency/ThreadPoolManager.hpp:135-150 | while a worker has not exited a productive step is possible |
| `ThreadPoolManager.StoppingEnds` | src/Utils/Concurrency/ThreadPoolManager.hpp:135-150 | a run of a stopping pool with no productive step left has all workers exited, after at most as many productive steps as remained at stop |
| `ThreadPoolManager.TaskQueue.Enqueue` | src/Utils/Concurrency/ThreadPoolManager.hpp:164-172 | an error exactly when stopped, else the task is last |
| `ThreadPoolManager.TaskQueue.Take` | src/Utils/Concurrency/ThreadPoolManager.hpp:185-198 | sleeps, exits or takes the first task as the model's critical section does |
| `EventLoopGenerator.CollectResults` | src/Utils/Concurrency/EventLoopGenerator.hpp:266-282 | the status is the worst of the producer's and all events' outcomes, the events are all results in order, the producer's exception is kept |
| `EventLoopGenerator.CombineIsWorst` | src/Utils/Concurrency/EventLoopGenerator.hpp:269-274 | taking one more event into account keeps the status the worst |
| `EventLoopGenerator.WorstMeans` | src/Utils/Concurrency/EventLoopGenerator.hpp:269-274 | the worst status is Failed iff the producer failed or an action threw, Completed iff the producer completed and every action returned |
| `EventLoopGenerator.EventQueue.ScheduleEvent` | src/Utils/Concurrency/EventLoopGenerator.hpp:153-182 | id 0 and the reason when stopped or when ids are exhausted; else the next id, queued last |
| `EventLoopGenerator.EventQueue.Take` | src/Utils/Concurrency/EventLoopGenerator.hpp:292-311 | sleeps, exits or takes the first event as the model's critical section does |
| `EventLoopGeneratorSafety.StepInv` | src/Utils/Concurrency/EventLoopGenerator.hpp:116-334 | every step keeps ids, promises, producers and shutdown stages consistent |
| `EventLoopGeneratorSafety.IdsAreContiguous` | src/Utils/Concurrency/EventLoopGenerator.hpp:153-182 | executed, in-hand and queued ids form the range from the initial id plus one to the last issued, never past 2^64-1 |
| `EventLoopGeneratorSafety.OneResultPerSubmission` | src/Utils/Concurrency/EventLoopGenerator.hpp:153-182 | every submission's promise is set at most once; rejections carry id 0 |
| `EventLoopGeneratorOutcomes.ActionDecidesResult` | src/Utils/Concurrency/EventLoopGenerator.hpp:313-332 | when an action ends, its event's unset future gets one result with the event's id, ActionFailed iff the action threw and Executed iff it returned, and keeps it to the end of the run |
| `EventLoopGeneratorOutcomes.SubmissionIsAnswered` | src/Utils/Concurrency/EventLoopGenerator.hpp:153-182 | a closed loop answers at once with RejectedStopped, used-up ids with RejectedIdExhausted, both with id 0 and for good; otherwise the event gets the next id and is queued last |
| `EventLoopGeneratorOutcomes.EndDecidesOutcome` | src/Utils/Concurrency/EventLoopGenerator.hpp:247-264 | a producer's outcome is Completed iff its generator was exhausted, Failed iff it threw, Cancelled iff it met a stop request or a rejection, and stays so |
| `EventLoopGeneratorOutcomes.EndedHasEnded` | src/Utils/Concurrency/EventLoopGenerator.hpp:247-264 | a producer that no longer generates has made such a step, and has that step's outcome |
| `EventLoopGeneratorOutcomes.ShutdownAsksEveryProducer` | src/Utils/Concurrency/EventLoopGenerator.hpp:134-136 | a producer is asked to stop by shutdown only, one after the other, and all of them before the first is joined |
| `EventLoopGeneratorSafety.SequenceStatusIsTheWorst` | src/Utils/Concurrency/EventLoopGenerator.hpp:240-290 | a finished sequence has its events' results in order; it is Failed iff its producer failed or an action threw, Completed iff its producer completed and all actions returned |
| `EventLoopGeneratorSafety.ShutdownMakesProgress` | src/Utils/Concurrency/EventLoopGenerator.hpp:116-150 | after admission closes every productive step decreases a measure over producers and unsettled events |
| `EventLoopGeneratorSafety.ShutdownNeverStuck` | src/Utils/Concurrency/EventLoopGenerator.hpp:116-150 | until shutdown is complete a productive step is possible |
| `EventLoopGeneratorSafety.ShutdownIsBounded` | src/Utils/Concurrency/EventLoopGenerator.hpp:116-150 | the productive steps of any run after closing are at most what remained then |
| `EventLoopGeneratorSafety.ShutdownEnds` | src/Utils/Concurrency/EventLoopGenerator.hpp:116-150 | a run after closing with no productive step left has completed shutdown, after at most as many productive steps as remained at closing |
| `EventLoopGeneratorSafety.ShutdownSettlesEverything` | src/Utils/Concurrency/EventLoopGenerator.hpp:116-150 | a complete shutdown leaves an empty queue and every promise settled |
| `Utf8.IsValidUtf8` | src/Utils/Storage/SQLiteDatabase.cpp:188-230 | true exactly on valid UTF-8 |
| `Utf8.ReadScalar` | src/Utils/Storage/SQLiteDatabase.cpp:191-227 | the length of the scalar at an index, or 0 when there is none |
| `Utf8.ReadTrail` | src/Utils/Storage/SQLiteDatabase.cpp:213-219 | whether the bytes continue the lead byte, and the code point they give |
| `Utf8.ValidIffEncoded` | src/Utils/Storage/SQLiteDatabase.cpp:188-230 | valid iff it is the concatenated encoding of scalar values, which are unique |
| `Utf8.DecodeFirstIsEncode` | src/Utils/Storage/SQLiteDatabase.cpp:191-227 | the first scalar is c iff the text starts with the encoding of c |
| `Utf8.MaskTests` | src/Utils/Storage/SQLiteDatabase.cpp:198-215 | each mask test on a byte is the arithmetic test the model uses |
| `Utf8.MaskValues` | src/Utils/Storage/SQLiteDatabase.cpp:198-218 | each masked value is the remainder the model uses |
| `Utf8.ShiftValue` | src/Utils/Storage/SQLiteDatabase.cpp:218-218 | the shift-and-or is the multiply-and-add the model uses |
| `Addresses.IsValidIpv4` | src/Utils/Storage/SQLiteDatabase.cpp:232-258 | true exactly on four dot-separated octets |
| `Addresses.QuadPartsIsDottedQuad` | src/Utils/Storage/SQLiteDatabase.cpp:232-258 | the split form the loop checks is the grammar's joined form |
| `Addresses.OctetMeans` | src/Utils/Storage/SQLiteDatabase.cpp:240-250 | a number in decimal is an octet iff it is at most 255 |
| `Addresses.CountIpv6Parts` | src/Utils/Storage/SQLiteDatabase.cpp:260-293 | the loop computes the specified count |
| `Addresses.CountMeaning` | src/Utils/Storage/SQLiteDatabase.cpp:260-293 | the count is -1 unless the sequence consists of pieces, and then the number of their groups |
| `Addresses.IsValidIpv6` | src/Utils/Storage/SQLiteDatabase.cpp:295-308 | true exactly when the text expands to groups |
| `Addresses.ExpandIsDenotes` | src/Utils/Storage/SQLiteDatabase.cpp:295-308 | the expansion is the groups iff the text is a form of RFC 4291 section 2.2 with those groups |
| `Addresses.GroupsAreUnique` | src/Utils/Storage/SQLiteDatabase.cpp:295-308 | no text denotes two different group lists |
| `Addresses.FullPrintIsAccepted` | src/Utils/Storage/SQLiteDatabase.cpp:295-308 | there are eight 16-bit groups, and their full print is accepted with the same groups |
| `Addresses.QuadMeans` | src/Utils/Storage/SQLiteDatabase.cpp:274-278 | a dotted quad of four numbers stands for two groups, the first number of each the higher byte |
| `Addresses.HexDigitsMean` | src/Utils/Storage/SQLiteDatabase.cpp:280-285 | the values of the hexadecimal digits in both cases |
| `Addresses.Ipv6Length` | src/Utils/Storage/SQLiteDatabase.cpp:295-308 | an accepted text has 2 to 45 bytes and a colon |
| `Addresses.IsValidHostname` | src/Utils/Storage/SQLiteDatabase.cpp:310-349 | true exactly on the form the loop checks |
| `Addresses.HostLabelsIsHostname` | src/Utils/Storage/SQLiteDatabase.cpp:310-349 | that form is the grammar of RFC 1123 section 2.1 with a length bound, an optional final dot and not only digits and dots |
| `Addresses.LabelMeans` | src/Utils/Storage/SQLiteDatabase.cpp:333-342 | a label has 1 to 63 letters, digits or hyphens, and no hyphen at its ends |
| `Addresses.AddressClasses` | src/Utils/Storage/SQLiteDatabase.cpp:360-369 | an accepted address is in exactly one class, with at most 15, 45 and 253 bytes |
| `DeviceItems.ValidateItem` | src/Utils/Storage/SQLiteDatabase.cpp:351-369 | reports the first bad field, and none exactly on store-valid devices |
| `DeviceItems.BadFieldMeans` | src/Utils/Storage/SQLiteDatabase.cpp:360-369 | the id is looked at first, then the name, then the address, and the bad one is reported |
| `DeviceItems.LengthsMean` | src/Utils/Storage/SQLiteDatabase.cpp:362-363 | for a device that is good otherwise, an id of n letters is taken iff 1 <= n <= 128, a name iff 1 <= n <= 256 |
| `DeviceItems.ValidDeviceSatisfiesChecks` | src/Utils/Storage/SQLiteDatabase.cpp:35-43 | every validated device satisfies all CHECK constraints |
| `DeviceItems.ValidateItems` | src/Utils/Storage/SQLiteDatabase.cpp:371-381 | accepts the list, or reports why the first refused device is refused |
| `DeviceItems.RefusedIffBad` | src/Utils/Storage/SQLiteDatabase.cpp:371-381 | a list is refused iff some device is invalid or two share an id |
| `DeviceMonitor.FindDeviceFinds` | src/Gui/DeviceMonitorState.cpp:158-166 | the position is that of the first device with the id, the end iff there is none |
| `DeviceOperations.SetAliveMeans` | src/Gui/DeviceMonitorState.cpp:134-146 | the first device with the id gets the flag and keeps its other fields, every other device stays, and the one new command carries that device |
| `DeviceOperations.ConfirmDeleteMeans` | src/Gui/DeviceMonitorState.cpp:113-132 | the list is left without its first device of the marked id, the others in their order, with one Delete of that id |
| `DeviceOperations.BeginEditMeans` | src/Gui/DeviceMonitorState.cpp:33-49 | the draft has all five fields of the first device with the id |
| `DeviceOperations.MissingMeans` | src/Gui/DeviceMonitorState.cpp:100-132 | for an id that is not shown only the error changes; a confirmation also gives up its mark |
| `DeviceOperations.BadDraftMeans` | src/Gui/DeviceMonitorState.cpp:168-181 | a blank field, else a port out of range, is reported and nothing else changes |
| `DeviceOperations.SubmitNewMeans` | src/Gui/DeviceMonitorState.cpp:62-77 | a good new draft is shown last with its five fields and emitted as Add, or reported as taken |
| `DeviceOperations.SubmitEditMeans` | src/Gui/DeviceMonitorState.cpp:78-97 | a good edit puts the draft's five fields in place of the first device with the id and emits Edit |
| `DeviceOperations.LostEditMeans` | src/Gui/DeviceMonitorState.cpp:78-90 | a changed id or a vanished device is reported and nothing else changes |
| `DeviceOperations.SmallOperationsMean` | src/Gui/DeviceMonitorState.cpp:22-151 | each of the operations without a device changes its one field |
| `DeviceOperations.CommandMeans` | src/Watchlist/DeviceStorageService.cpp:163-183 | the rows after each command and the reason for each refusal |
| `DeviceReplica.ApplyHasEffect` | src/Gui/DeviceMonitorState.cpp:22-151 | each user operation changes nothing and emits nothing, or emits the one command that its change amounts to |
| `DeviceReplica.EffectKeeps` | src/Watchlist/DeviceStorageService.cpp:160-190 | performing that command succeeds if its device passes the check and is refused as an invalid item otherwise; on success the store mirrors the new list |
| `DeviceReplica.ReplayAgrees` | src/Gui/DeviceMonitorState.cpp:53-146 | for any operations ids stay distinct, and replaying all emitted commands ends without error if all carried devices pass the check and with an invalid item otherwise, so never with a duplicate Add; without error the store holds exactly the devices shown |
| `DeviceReplica.RefusedDraftFails` | src/Gui/DeviceMonitorState.cpp:168-180 | any draft the view accepts and the check refuses makes the replay fail |
| `DeviceReplica.SomeDraftIsRefused` | src/Utils/Storage/SQLiteDatabase.cpp:360-369 | the address "a b" makes such a draft |
| `DeviceSnapshots.SnapshotIsUnique` | src/Utils/Storage/SQLiteDatabase.cpp:578-588 | a store has at most one id-sorted list of contents |
| `DeviceSnapshots.SnapshotExists` | src/Utils/Storage/SQLiteDatabase.cpp:578-588 | and it has one |
| `DeviceSnapshots.BeforeMeans` | src/Utils/Storage/SQLiteDatabase.cpp:578-588 | an id is before another iff after their common beginning it ends or has the smaller byte |
| `DevicePipeline.ResultsAreSequential` | src/Watchlist/DeviceStorageService.cpp:111-190 | in every run the results are the sequential execution of the submitted batches, in order, each once |
| `DevicePipeline.PollStopsAtFailure` | src/Gui/Gui.cpp:325-333 | a poll with a failure shows the last success before it and nothing after it, and stops the worker |
| `DevicePipeline.QuietViewIsTheStore` | src/Gui/Gui.cpp:320-335 | under any interleaving of user operations, the two sections of a pump and worker steps: with nothing under way and no failed result the view is the store's id-sorted contents |
| `DeviceStaleness.SucceedsIffUnspoiled` | src/Watchlist/DeviceStorageService.cpp:160-198 | in every run, nothing has failed and all that is on its way will succeed iff the rows the store started with pass and no user operation emitted a command that the store, when it gets to it, refuses: a device that does not pass, or an Add of an id that is there |
| `DeviceStaleness.FailsIffSpoiled` | src/Watchlist/DeviceStorageService.cpp:140-158 | once nothing is on its way, some result has failed iff a starting row did not pass or such a command was emitted |
| `DeviceStaleness.FreshRunsNeverFail` | src/Gui/Gui.cpp:320-335 | one way to meet the condition: from any quiet moment on, with valid devices and no snapshot shown while something is on its way, no command is refused and what is on its way leads to exactly what the view shows |
| `DeviceStaleness.StaleSnapshotFails` | src/Gui/DeviceMonitorState.cpp:16-20 | for every acceptable device a run in which a stale snapshot hides it, the user adds it again and the store refuses a duplicate |
| `DeviceStaleness.EarlyAddFails` | src/Gui/DeviceMonitorState.cpp:53-98 | for every acceptable device a run in which the store holds it from the start, the user adds it before anything was polled, and the store refuses a duplicate |
| `DeviceObjects.DeviceMonitorState.ReplaceDevices` | src/Gui/DeviceMonitorState.cpp:16-20 | shows the new list, clears the error, keeps the rest |
| `DeviceObjects.DeviceMonitorState.Find` | src/Gui/DeviceMonitorState.cpp:158-161 | the first position with the id |
| `DeviceObjects.DeviceMonitorState.BeginEdit` | src/Gui/DeviceMonitorState.cpp:33-49 | opens the editor on a copy of the device, or reports that it is gone |
| `DeviceObjects.DeviceMonitorState.SubmitEditor` | src/Gui/DeviceMonitorState.cpp:53-98 | the whole new state for each branch of adding and editing; true iff a command was emitted |
| `DeviceObjects.DeviceMonitorState.RequestDelete` | src/Gui/DeviceMonitorState.cpp:100-109 | marks an existing device, or reports that it is gone |
| `DeviceObjects.DeviceMonitorState.ConfirmDelete` | src/Gui/DeviceMonitorState.cpp:113-132 | removes the marked device and emits Delete; true iff a command was emitted |
| `DeviceObjects.DeviceMonitorState.SetAlive` | src/Gui/DeviceMonitorState.cpp:134-146 | changes only that device's flag and emits SetAlive with it |
| `DeviceObjects.DeviceMonitorState.ConsumeCommands` | src/Gui/DeviceMonitorState.cpp:153-156 | hands over all commands and keeps none |
| `DeviceObjects.DeviceDatabase.PerformCommand` | src/Watchlist/DeviceStorageService.cpp:160-190 | rows and failure as the model's store with the store's own item check |
| `DeviceObjects.DeviceDatabase.PerformBatch` | src/Watchlist/DeviceStorageService.cpp:163-183 | commands in order up to the first failure, whose predecessors stay done |
| `DeviceObjects.DeviceDatabase.GetAllSortedById` | src/Utils/Storage/SQLiteDatabase.cpp:578-588 | the id-sorted contents, iff every row still passes the item check |
| `DeviceObjects.DeviceDatabase.Execute` | src/Watchlist/DeviceStorageService.cpp:160-198 | the result reports the batch: its failure, or the id-sorted contents it left |
| `DeviceObjects.DeviceStorageService.Submit` | src/Watchlist/DeviceStorageService.cpp:67-76 | a non-empty batch is queued last, an empty one is ignored |
| `DeviceObjects.DeviceStorageService.PollResults` | src/Watchlist/DeviceStorageService.cpp:78-82 | hands over all results and keeps none |
| `DeviceObjects.PumpStorage` | src/Gui/Gui.cpp:320-335 | the two sections of a pump one after the other: commands submitted, each success shown in turn, the first failure ends it |
| `MqttTopics.TopicMatches` | src/Watchlist/Messaging/MqttService.cpp:40-61 | the loop computes the relation on texts |
| `MqttTopics.WalkIsLevelsMatch` | src/Watchlist/Messaging/MqttService.cpp:40-61 | the walk over levels is the level-list relation: + one level, final # one or more, other # never |
| `MqttTopics.OneLevelMeans` | src/Watchlist/Messaging/MqttService.cpp:48-51 | of single levels, + and # match any and every other filter only itself |
| `MqttTopics.DifferencesFromTheStandard` | src/Watchlist/Messaging/MqttService.cpp:40-61 | the parent level of a trailing # and $ topics are exactly the differences from MQTT 3.1.1, each way |
| `MqttTopics.BothDifferencesOccur` | src/Watchlist/Messaging/MqttService.cpp:48-56 | "a/#" does not match "a" though the standard says so, and "#" matches "$SYS/x" though the standard forbids it |
| `MqttTopics.AckFilterIsExact` | src/Watchlist/Messaging/MqttTopics.hpp:11-14 | a valid client's ack topic, used as a filter, matches that topic and no other |
| `MqttTopics.AckTopicsAreSeparate` | src/Watchlist/Messaging/MqttMessages.cpp:172-180 | for valid client ids c and d the filter of d matches the ack topic of c iff c = d |
| `MqttTopics.ClientIdMeans` | src/Watchlist/Messaging/MqttMessages.cpp:172-180 | a client id has 1 to 128 letters, digits, hyphens, underscores or dots |
| `JsonText.EscapeJson` | src/Watchlist/Messaging/MqttMessages.cpp:16-45 | the loop computes the escaped text |
| `JsonText.StringIsRead` | src/Watchlist/Messaging/MqttMessages.cpp:16-45 | a reader by RFC 8259 section 7 gives the string back; a strict one refuses exactly unreadable strings |
| `JsonText.ObjectIsRead` | src/Watchlist/Messaging/MqttMessages.cpp:55-68 | a printed object is read back to its members; a strict reader refuses exactly when a value is unreadable |
| `JsonObjects.AppendField` | src/Watchlist/Messaging/MqttMessages.cpp:55-62 | the stream holds one more member, with a comma unless it is the first |
| `JsonObjects.AppendOptionalField` | src/Watchlist/Messaging/MqttMessages.cpp:64-68 | as AppendField when there is a value, else nothing |
| `JsonObjects.HoldsAll` | src/Watchlist/Messaging/MqttMessages.cpp:182-200 | the object of the printed members has each entry's value, and no member for an entry without one |
| `MqttMessages.TypeNameRoundTrip` | src/Watchlist/Messaging/MqttMessages.cpp:138-170 | reading a type name inverts printing it and accepts nothing else |
| `MqttMessages.SerializeRequest` | src/Watchlist/Messaging/MqttMessages.cpp:182-200 | the text is the printed object of the request's present fields in order |
| `MqttMessages.MissingMeansIncomplete` | src/Watchlist/Messaging/MqttMessages.cpp:70-112 | a request is refused iff it is not complete for its kind, and for a field it lacks |
| `MqttMessages.NonStringEnvelopeField` | src/Watchlist/Messaging/MqttMessages.cpp:114-134 | the first envelope field present without being a string |
| `MqttMessages.ParseRequest` | src/Watchlist/Messaging/MqttMessages.cpp:202-251 | fills the specified result for every object and for a text that is none |
| `MqttMessages.ExtractsWhatIsHeld` | src/Watchlist/Messaging/MqttMessages.cpp:202-251 | a request comes out iff the object holds exactly that request field by field and it is complete |
| `MqttMessages.RecoversTheRoute` | src/Watchlist/Messaging/MqttMessages.cpp:205-217 | id and client id are the object's string members, else empty, whatever the outcome |
| `MqttMessages.RoundTrip` | src/Watchlist/Messaging/MqttMessages.cpp:182-251 | the result of reading and extracting a printed request: refused iff unreadable, itself iff complete, else the missing field with the recovered ids |
| `MqttMessages.ControlByteIsNotReadBack` | src/Watchlist/Messaging/MqttMessages.cpp:38-41 | a complete request whose id is the byte 1 is printed and then refused |
| `MqttMessages.SerializeIsInjective` | src/Watchlist/Messaging/MqttMessages.cpp:182-200 | no two requests print alike |
| `MqttWire.ReadsTheWire` | src/Watchlist/Messaging/MqttMessages.cpp:202-251 | a request comes out of an object iff the object has its values under the literal member names and the literal type text, and the request has what its kind needs |
| `MqttWire.PrintsTheWire` | src/Watchlist/Messaging/MqttMessages.cpp:182-200 | the printed text letter by letter: the four common members under their literal names, then the present optional ones in order |
| `MqttWire.CompleteMeans` | src/Watchlist/Messaging/MqttMessages.cpp:82-109 | which members each kind of request needs |
| `MqttWire.MissesInOrder` | src/Watchlist/Messaging/MqttMessages.cpp:70-112 | which problem is reported first for a request that lacks several things |
| `MqttWire.RefusesInOrder` | src/Watchlist/Messaging/MqttMessages.cpp:205-229 | a member that is no string is reported first, in the order of the fields, then a missing type, then an unknown one |
| `RequestDispatcher.StepInv` | src/Watchlist/Dispatch/RequestDispatcher.cpp:22-85 | every step keeps each call's acknowledgements exactly those due in its stage |
| `RequestDispatcher.AcknowledgedAtMostOnce` | src/Watchlist/Dispatch/RequestDispatcher.cpp:22-85 | in every state a payload has at most one acknowledgement, with the ids recovered from it |
| `RequestDispatcher.FalseMeansErrorAck` | src/Watchlist/Dispatch/RequestDispatcher.cpp:22-53 | false: exactly one error acknowledgement by the caller, no task; a well-formed request only in a shutdown |
| `RequestDispatcher.TrueMeansWorkerAck` | src/Watchlist/Dispatch/RequestDispatcher.cpp:55-111 | true: the task is accepted and only the worker acknowledges, with the request's ids; it is an error iff the request is for a script other than script1 |
| `RequestDispatcher.ClosedDispatcherAcceptsNothing` | src/Watchlist/Dispatch/RequestDispatcher.cpp:38-75 | after StopAccepting no call that has not passed both checks is ever accepted |
| `RequestDispatcher.DrainedMeansExactlyOne` | src/Watchlist/Dispatch/RequestDispatcher.cpp:55-70 | after the pool drained an accepted call has exactly one acknowledgement, none iff its handler threw, which only a store request can |
| `RequestDispatcher.ThrowingLeavesUnanswered` | src/Watchlist/Dispatch/RequestDispatcher.cpp:65-69 | for every complete store request a run that ends drained without an acknowledgement of it |
| `RequestDispatcher.AnswersArePublished` | src/Watchlist/Dispatch/RequestDispatcher.cpp:77-85 | an answer is published iff the recovered client id is valid, so always for a well-formed request |
| `RequestDispatcher.AnswersAreFinal` | src/Watchlist/Dispatch/RequestDispatcher.cpp:22-85 | a returned value and a sent acknowledgement are never taken back |
| `RequestDispatcher.Dispatcher.RecordAndPublishAck` | src/Watchlist/Dispatch/RequestDispatcher.cpp:77-85 | records the acknowledgement last, and publishes it iff there is a publisher and the client id is valid |
| `RequestDispatcher.Dispatcher.Dispatch` | src/Watchlist/Dispatch/RequestDispatcher.cpp:55-70 | queues the task iff accepting and the pool is not stopped, else an error and an unchanged queue |
| `RequestDispatcher.Dispatcher.HandleIncomingPayload` | src/Watchlist/Dispatch/RequestDispatcher.cpp:22-53 | true and queued without an acknowledgement, or false with one error acknowledgement and an unchanged queue |
| `MqttService.StepKeeps` | src/Watchlist/Messaging/MqttService.cpp:104-485 | every step but putting a client in place while Connected keeps every registered topic sent or pending |
| `MqttService.MissesNoneIffNeverBlind` | src/Watchlist/Messaging/MqttService.cpp:402-437 | for any callbacks a run misses no subscription iff no client is put in place while Connected with topics registered |
| `MqttService.SilentClientsMissNone` | src/Watchlist/Messaging/MqttService.cpp:402-485 | when released clients are silent no state of any run misses a subscription |
| `MqttService.QuietMeansAllSent` | src/Watchlist/Messaging/MqttService.cpp:402-456 | then, with nothing left to send, every registered topic was sent to the client in place since the last entry |
| `MqttService.StatusMeans` | src/Watchlist/Messaging/MqttService.cpp:523-559 | the status after every step: which steps make it Error, Connecting, Disconnecting, Offline, Reconnecting and Connected, and when |
| `MqttService.FieldsMean` | src/Watchlist/Messaging/MqttService.cpp:120-198 | the client, the topics and the shutdown flag after every step |
| `MqttService.ActivitiesMean` | src/Watchlist/Messaging/MqttService.cpp:338-456 | what a subscription, a callback and a send leave to be sent |
| `MqttService.DisconnectEndsOffline` | src/Watchlist/Messaging/MqttService.cpp:256-269 | in any run, when Disconnect ends the service is offline, without a client and shut down for callbacks |
| `MqttService.LateCallbackMisses` | src/Watchlist/Messaging/MqttService.cpp:256-269 | a run in which the first client's connect is answered after Disconnect released it and while a second Connect has no client in place: a topic is missed |
| `MqttService.ServiceState.ConnectBegin` | src/Watchlist/Messaging/MqttService.cpp:120-127 | goes on only when not connecting, connected or reconnecting, and then clears the shutdown flag |
| `MqttService.ServiceState.DisconnectBegin` | src/Watchlist/Messaging/MqttService.cpp:259-264 | sets the shutdown flag and says whether there is a client |
| `MqttService.ServiceState.ReleaseClient` | src/Watchlist/Messaging/MqttService.cpp:460-464 | takes the client out of its place |
| `MqttService.ServiceState.ReportError` | src/Watchlist/Messaging/MqttService.cpp:553-559 | the status becomes Error iff the error changes the lifecycle and nothing is shutting down |
| `MqttService.ServiceState.Subscribe` | src/Watchlist/Messaging/MqttService.cpp:161-182 | registers a non-empty topic with a handler; owes a send to the current client iff Connected |
| `MqttService.ServiceState.Unsubscribe` | src/Watchlist/Messaging/MqttService.cpp:184-200 | removes a non-empty topic, and owes an unsubscription to the client in place iff Connected |
| `MqttService.ServiceState.HandleConnected` | src/Watchlist/Messaging/MqttService.cpp:402-419 | enters Connected unless shutting down or there already, owing each registered topic once to the current client |
| `MqttService.ServiceState.Matching` | src/Watchlist/Messaging/MqttService.cpp:354-361 | exactly the registered filters that match the topic |

## Left out

- Allocation failure, and the failure of a thread to start, everywhere.
- C++ frame memory: frames are identities; the destruction of an abandoned coroutine is not modelled.
- Construction races: every run starts from a fully constructed object.
- `run` of a calling-thread loop entered a second time, or from inside a callback.
- The data an event carries is kept by the object (`AsyncEventLoopQueues.LoopQueues.EmitEvent`) and left out of the transition system, where events are names.
- `AsyncEventLoop::process_events` and its event streams: an ordinary coroutine that emits and delays, covered as any other.
- Re-entering shutdown, or submitting sequences, from an action of the generator loop; a generator that never reaches its next yield.
- Clearing the producer list after joining; the model keeps finished producers.
- SQLite, SQL text, transactions, schema inspection and migration, `KeyValueStore`: the device table is a map from id to item.
- Message texts and exception details: messages are enumerations, errors carry their reason only.
- `DeviceStorageService` stop and teardown, and results pushed when opening the database fails.
- The JSON library: the reader takes objects whose members are strings, which is what is printed; for other texts the parsed object is the input of ParseRequest.
- `SerializeAck`, `MakeAck` and the texts and times of acknowledgements: an acknowledgement is its ids, its status and who sent it.
- An acknowledgement publisher that throws, and the direct use of `Dispatch` by other code than HandleIncomingPayload.
- Paho: a client is an identity with the callbacks it may deliver; `Publish`, pending operations and their waiting are left out.
- What the broker makes of subscriptions: an unsubscription in flight may overtake a later subscription of the same topic; the model follows what is sent, not what the broker keeps.
- `MqttService::Run`, its retry delays and the status and error handlers.
- User interface, windows, histories, logging and profiling.
- JsonObjects.PrintEntries: the source's sequence of append calls is written as a loop over the same fields.
