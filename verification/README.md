# Optical circuit switch control plane: a verified model

The repository drives an optical circuit switch from a gNMI front end. A Set request is committed to
CONFIG_DB together with one batch event; the orchestrator turns each event into a device command and
keeps an apply status per connection in APPL_DB; the sync daemon (syncd) applies commands to the
device and publishes state, counters and results; the device itself must always hold a partial
matching of input to output ports. Every process may die between any two Redis operations and is
redelivered what it had not acknowledged.

This project models that pipeline in Dafny and proves what it guarantees over whole runs.

How it is built:

* A value the code computes is a function; an algorithm with loops is a method proved against such a
  function; an object that changes its fields is a class (`SimulatedDevice.SimulatedOcsDevice`,
  `SyncdService.Service`, `OrchestratorService.Service`).
* Everything that several processes do at once, or that a crash can cut off, is a state machine: a
  `State`, an `Action`, `Step` (a disabled action changes nothing) and `Run`. Theorems quantify over
  all action sequences, or over all reachable states, which are proved to be the ends of all action
  sequences. Crash, redelivery and interference by others are actions like any other.
* `SyncdService` and `OrchestratorService` connect the two: their methods, cut off after any number of
  durable operations, are proved to be runs of the machines in `Syncd` and `Orchestrator`.
* `PipelineMachine` runs the machines of the store, the orchestrator, the daemon and the device side by side.

| module | models |
|---|---|
| `Runs` | runs of a step function and the states they reach |
| `Ids`, `Connections`, `ConfigLog`, `CommandIds` | ids and their order, commands and the matrix they build, the event log and its replay, command identities |
| `SetTransaction`, `ConfigStore`, `SetMeaning` | building a Set candidate; concurrent Sets under WATCH; what a request means field by field |
| `RedisTransactions`, `ConsumerGroup` | the "once" transactions of the repository class; one-pending-entry delivery |
| `DeviceModel`, `DeviceLaws`, `SimulatedDevice` | the device as functions and runs; what its callers can rely on; the device class with its index arrays |
| `Reconciler`, `Reconciliation` | the reconciliation plan; a round of reading, planning and applying on a device |
| `StatusMachine`, `Orchestrator`, `OrchestratorStatus`, `OrchestratorResults`, `OrchestratorService`, `Backoff` | apply status, the orchestrator's machine, statuses over runs, what becomes of results, timeouts and retries, its methods, the retry delay |
| `Syncd`, `SyncdLaws`, `SyncdService` | the daemon's machine, what it publishes, its methods |
| `PipelineMachine`, `Pipeline`, `PipelineState` | the components side by side, the end-to-end refinement, and STATE_DB along it |
| `Subscription` | ON_CHANGE subscriptions |
| `FrameCodec` | the frame format of the device socket |

Run `dafny verify dfyconfig.toml` to check everything.

## Where code and expectation differ

* Frame codec: encoding accepts any message type, decoding refuses unknown ones, so decoding an encoded
  frame returns it exactly when its type is known (`FrameCodec.DecodeEncode`).
* Backoff: with an odd maximum the last doubling can be rounded up to the maximum, one millisecond above
  the capped exponential; `Backoff.RoundsUp` is the exact condition and `Backoff.OddMaximumRoundsUp` an
  instance.
* Reconciliation: a removal carries the applied version, or 1 for a connection applied without a
  version, so the plan is refused if such a connection has a fence above 1; `Reconciler.Reconcilable` is
  the exact condition, `Reconciler.HiddenFence` a device that gets there in two calls, and with positive
  applied versions that part of the condition is vacuous.
* Device: the final matrix of a batch depends on the order of its commands exactly if two commands with
  the same id ask for different things (`Connections.OrderFreeIff`); for the device as a whole, exactly if
  besides some order of the batch is accepted (`DeviceModel.OrderIndependentIff`).
  `DeviceModel.RepeatedIdsAreOrderDependent` is an instance.
* Device cache: a repeated operation id returns the first result even if it comes with other commands,
  and the 4096th newer result evicts it (`DeviceModel.WindowIsSharp`).
* Syncd: a stored success whose list leaves out an upsert of the batch stops the worker on every
  redelivery, exactly if that member is not published yet and its STATE_DB entry is not newer
  (`Syncd.ThrowsIff`, `Syncd.Blocks`). Once stuck the worker stays stuck (`Syncd.StuckForever`);
  `Syncd.OmissionSticks` is a run that gets there and `Syncd.OmissionSuperseded` the harmless case. In the
  whole pipeline the device always lists its upserts and this never happens
  (`PipelineState.StateFollowsDevice`).
* Versioned writes: a hash may leave its version out; it is then written, and the key carries no fence
  afterwards. A hash that names another version than its marker makes the call throw before it commits.

## Model

| member | source | states |
|---|---|---|
| `Pipeline.DeviceFollowsConfig` | cpp/src/syncd_service.cpp:1503-1647 | in every state reached by any interleaving of Sets, orchestrator and daemon with crashes anywhere, the device's connections are the replay of a prefix of the configuration log at most one event ahead of the acknowledged commands, always a valid matching; once both streams are drained they equal CONFIG_DB in ids, ports and versions |
| `Pipeline.DeviceMovesForward` | cpp/src/simulated_ocs_device.cpp:49-162 | in every step of every run the log only grows, and the device's connections stay as they are or become what the next event of the log makes of them; before and after they are the replay of the log up to the device's position |
| `PipelineState.StateFollowsDevice` | cpp/src/syncd_service.cpp:1747-1883 | once both streams are drained STATE_DB holds exactly the device's connections, with ports and versions and all present and active, they are those of CONFIG_DB, and active_connections is their number; the daemon is never stuck |
| `PipelineState.PublishedOverRuns` | cpp/src/syncd_service.cpp:1747-1883 | at every point of every run each published member's state is that of the current event, every other connection's that of the one before, and every stored or cached result lists what its event leaves |
| `PipelineMachine.InvOverRuns` | cpp/src/orchestrator_service.cpp:291-451 | the invariant of the composition: commands are published in log order, one whole event each, the daemon's stream is exactly these, and what the daemon has a result for has been applied |
| `Syncd.ExactlyOnce` | cpp/src/syncd_service.cpp:1503-1647 | over every run with crashes anywhere: at most one state and one result event per command and member, all repeating the one durable result; counters equal the number of counted commands, by outcome; every acknowledged command has exactly one result event per member and was counted, or was skipped with nothing published |
| `Syncd.ResultIsFinal` | cpp/src/syncd_service.cpp:1543-1605 | a stored apply result never changes in any continuation of a run |
| `Syncd.EventsComeFromCommands` | cpp/src/syncd_service.cpp:1747-1945 | every state and result event belongs to a member of a command in the stream and carries its id and version; a successful upsert's state carries its ports and the version the device reported |
| `Syncd.Conservation` | cpp/src/syncd_service.cpp:1610-1630 | at every point of every run, active_connections plus the deltas of state markers of commands not yet counted is the number of connections whose state says present; before every acknowledgement the two are equal |
| `Syncd.ActiveChanges` | cpp/src/syncd_service.cpp:1747-1883 | publishing one member changes the number of present connections by exactly the delta its marker records, whether it is published, superseded or confirmed unchanged |
| `SyncdLaws.PublishedLawfully` | cpp/src/syncd_service.cpp:1747-1883 | STATE_DB only changes by publishing a member of the current command, and then, read off STATE_DB before: nothing if published; marked superseded if the stored version is higher; marked unchanged exactly if a port failed and it holds the upsert up and active on its ports at its version; else exactly the new state, event and delta |
| `SyncdLaws.ReportsWhatIsHeld` | cpp/src/syncd_service.cpp:1885-1945 | in every step of every run a new result event repeats the stored result, or, for a member confirmed unchanged, lists exactly what STATE_DB then holds for the connection |
| `SyncdLaws.StoredIs` | cpp/src/syncd_service.cpp:1533-1605 | a stored result is that of a payload that could not be decoded or what the worker came back with from the device |
| `SyncdLaws.CalledIs` | cpp/src/syncd_service.cpp:1557-1590 | which is the device's answer, or a success that lists every upsert if an attempted apply failed while the device visibly holds the whole batch |
| `SyncdLaws.ProcessedOverRuns` | cpp/src/syncd_service.cpp:1671-1737 | in every run a processed marker records success or failure of the stored result; a success leaves every member known at its version or later in this generation, changing exactly those that were not, a failure changes no version |
| `SyncdLaws.SkippedIff` | cpp/src/syncd_service.cpp:1548-1552 | a delivery that starts from nothing is skipped exactly if every member is known at its version or later in the current generation |
| `SyncdLaws.SkippedWasApplied` | cpp/src/syncd_service.cpp:1653-1669 | whatever made a command stale was known from the start or applied by an earlier successful command |
| `Syncd.ConfirmAppliedResult` | cpp/src/syncd_service.cpp:1460-1501 | the loop over the batch computes the confirmation |
| `Syncd.ConfirmedIffInPlace` | cpp/src/syncd_service.cpp:1460-1501 | a failure becomes a success exactly if the batch is not empty and the device visibly holds every upsert on its own ports, each in range, enabled and up, at its version, and none of the removals; then every upsert is reported as the device holds it, else the failure stays |
| `Syncd.InvOverRuns` | cpp/src/syncd_service.cpp:1503-1647 | the daemon's invariant over every run: effects come in order, finished commands are complete or skipped, later commands have left no trace |
| `SyncdService.Service.PublishOne` | cpp/src/syncd_service.cpp:1747-1883 | one member's publication as a function of the databases before; it fails exactly on a success that omits the connection, and then changes nothing |
| `SyncdService.Service.CountOnce` | cpp/src/redis_repository.cpp:349-390 | counters change once per command |
| `SyncdService.Service.ReportOnce` | cpp/src/syncd_service.cpp:1885-1945 | a result event is appended exactly when its marker is absent |
| `SyncdService.Service.MarkProcessed` | cpp/src/syncd_service.cpp:1671-1737 | the processed marker, and for a success the versions that are news, in one write |
| `SyncdService.Service.ObtainResult` | cpp/src/syncd_service.cpp:1524-1605 | from a delivery to a stored result, or a skip, as steps of the machine |
| `SyncdService.Service.PublishState` | cpp/src/syncd_service.cpp:1747-1883 | the loop over the members, cut off anywhere, as steps of the machine with the summed delta |
| `SyncdService.Service.PublishResult` | cpp/src/syncd_service.cpp:1885-1945 | the loop over the result events, cut off anywhere, as steps of the machine |
| `SyncdService.Service.ProcessOne` | cpp/src/syncd_service.cpp:1503-1647 | a delivery cut off after any number of durable operations is a run of the machine; with enough operations it acknowledges its command exactly if no member blocks, which can be read off the databases and the device's answer before it; otherwise the worker is stuck |
| `Syncd.ThrowsIff` | cpp/src/syncd_service.cpp:1752-1837 | a member's publication throws exactly for an unlisted upsert of a success that is not published yet and whose stored state is not newer |
| `Syncd.StuckStays` | cpp/src/syncd_service.cpp:1503-1647 | a stored result that cannot be published stays so through every step, crash and redelivery, and the command is not acknowledged |
| `Syncd.StuckForever` | cpp/src/syncd_service.cpp:1503-1647 | hence no run gets past it |
| `Syncd.OmissionSticks` | cpp/src/syncd_service.cpp:1829-1837 | a run from the start in which the device accepts an upsert without listing it ends stuck |
| `Syncd.OmissionSuperseded` | cpp/src/syncd_service.cpp:1763-1776 | the same omission is marked superseded and passes if the stored state is newer |
| `SyncdService.DeliveryStaysStuck` | cpp/src/syncd_service.cpp:1503-1647 | no delivery, whatever its budget and the device's answer, acknowledges a stuck command |
| `SyncdService.DeliveryIsRun` | cpp/src/syncd_service.cpp:1503-1647 | what a delivery reaches is what some action sequence of the machine reaches |
| `SyncdService.DeliveryKeepsInv` | cpp/src/syncd_service.cpp:1503-1647 | so every delivery, however cut off, keeps the daemon's invariant |
| `Orchestrator.Publication` | cpp/src/orchestrator_service.cpp:308-451 | over every run on batch events: exactly one command per event whose marker is set and none otherwise, its payload the durably prepared batch under the event's version, and strictly increasing versions per connection over the commands made from events |
| `Orchestrator.PublicationSteps` | cpp/src/redis_repository.cpp:392-446 | in every step of every run no APPL_DB record disappears, none gets a lower version, and no prepared batch changes |
| `Orchestrator.BoundedRetries` | cpp/src/orchestrator_service.cpp:630-871 | an event leads to at most maxRetries + 1 commands, a command is retried at most once and only if it was published and timed out, and attempts strictly increase along a chain up to maxRetries |
| `Orchestrator.BackoffRespected` | cpp/src/orchestrator_service.cpp:646-740 | a timeout decides on a retry due after the backoff delay of its attempt, the retry event repeats that durable decision, and no retry starts before it is due |
| `Orchestrator.DueTimeIs` | cpp/src/orchestrator_service.cpp:646-740 | that due time in numbers: the clock plus the delay, between the base and the maximum delay from now |
| `Orchestrator.PutExact` | cpp/src/redis_repository.cpp:409-437 | a versioned write of distinct keys that are not newer replaces exactly these records |
| `Orchestrator.InvOverRuns` | cpp/src/orchestrator_service.cpp:291-871 | the orchestrator's invariant over every run of its three activities with crashes |
| `OrchestratorStatus.StatusMachineOverRuns` | cpp/src/orchestrator_service.cpp:155-183 | for logs produced by Set, in every step of every run: statuses are among the six, agree with the stored operation, move along one or two legal transitions or by a newer version taking over a running execution, and no check throws |
| `OrchestratorStatus.EventsArePublishedWhole` | cpp/src/orchestrator_service.cpp:322-371 | for such logs every event taken is published with all its commands, and once all are taken the APPL_DB upserts are exactly the connections the log replays to, with ports and versions |
| `OrchestratorStatus.ResultFits` | cpp/src/orchestrator_service.cpp:507-551 | a result that is not a timeout is never newer than its record, and if it has the record's version it belongs to the command the record names, which is not waiting for a retry |
| `OrchestratorResults.StatusHasCause` | cpp/src/orchestrator_service.cpp:453-740 | at every point of every run, for Set logs: ACTIVE and ABSENT rest on a success of the command the record names, for an upsert and a removal; FAILED on a failure of it or a timeout with no retry left, RETRY_WAIT on a timeout with one left; an execution carries its attempt number |
| `OrchestratorResults.ResultDecides` | cpp/src/orchestrator_service.cpp:507-595 | in every step of every run a record that stops executing belongs to the command whose result is read: a failure makes it FAILED, a success ABSENT for a removal and ACTIVE for an upsert, a timeout RETRY_WAIT or, after the last attempt, FAILED |
| `OrchestratorResults.ExecutionStarts` | cpp/src/orchestrator_service.cpp:373-400 | every other change of a record is a member of the event being taken starting it, or a record in RETRY_WAIT executing again under the retry of the command it names |
| `OrchestratorResults.ResultsAreNotLost` | cpp/src/orchestrator_service.cpp:475-600 | an acknowledged result that is not a timeout has decided its record, and as it says, unless a newer event has taken over |
| `OrchestratorResults.TimeoutsAreNotLost` | cpp/src/orchestrator_service.cpp:601-871 | an acknowledged timeout was recorded and, with attempts left, handed to exactly one retry; an acknowledged retry was published as exactly one command; unless a newer event has taken over |
| `OrchestratorService.SelectCommands` | cpp/src/orchestrator_service.cpp:328-349 | refuses a batch exactly if a member is not news; otherwise drops exactly the removals of unknown connections |
| `OrchestratorService.StartRecords` | cpp/src/orchestrator_service.cpp:373-400 | the records a command starts with, or the exception exactly if some member cannot start |
| `OrchestratorService.WriteVersioned` | cpp/src/redis_repository.cpp:409-437 | the loop that replaces the records not fenced off by a higher version |
| `OrchestratorService.LateRecords` | cpp/src/orchestrator_service.cpp:669-688 | the records of a timed-out command exactly if all of them are still its own |
| `OrchestratorService.RetryRecords` | cpp/src/orchestrator_service.cpp:786-818 | the records of a retry exactly if all of them wait for it or were already handed over |
| `OrchestratorService.Service.DecideTimeout` | cpp/src/orchestrator_service.cpp:625-667 | the decision of a timeout: what a marker remembers, else a new one from the first record |
| `OrchestratorService.Service.ProcessConfigOne` | cpp/src/orchestrator_service.cpp:291-451 | cut off after any number of durable operations, a run of the machine; acknowledges unless it ran out or threw |
| `OrchestratorService.Service.ProcessResultOne` | cpp/src/orchestrator_service.cpp:453-600 | the same for results and timeouts |
| `OrchestratorService.Service.ProcessRetryOne` | cpp/src/orchestrator_service.cpp:743-871 | the same for retries; one that is not due yet stays pending and changes nothing |
| `OrchestratorService.CallIsRun` | cpp/src/orchestrator_service.cpp:291-871 | what a call reaches is what some action sequence of the machine reaches |
| `OrchestratorService.CallKeepsSound` | cpp/src/orchestrator_service.cpp:291-871 | so every call keeps the invariants, and on a log that Set produced it never throws |
| `StatusMachine.StartApplyThrowsIff` | cpp/src/orchestrator_service.cpp:155-183 | starting throws exactly on removing something absent or in the middle of something else; otherwise it yields the executing status along legal transitions or over a running execution |
| `StatusMachine.EnteredFrom` | cpp/src/connection_state_machine.cpp:73-105 | the legal transitions, listed by the status entered |
| `Backoff.RetryAtNs` | cpp/src/orchestrator_service.cpp:211-226 | the doubling loop computes the delay without leaving its integer widths, and adds it to the clock |
| `Backoff.DelayBounds` | cpp/src/orchestrator_service.cpp:211-226 | between base and maximum; the capped exponential, except one millisecond more exactly when an odd maximum is missed by one |
| `Backoff.DelayDoubles` | cpp/src/orchestrator_service.cpp:211-226 | the delay is the base first, then doubles, or is the maximum once half of it is reached |
| `Backoff.DueIs` | cpp/src/orchestrator_service.cpp:211-226 | due at now plus the delay in nanoseconds, wrapping around 64 bits at most once |
| `Backoff.DelayMonotone` | cpp/src/orchestrator_service.cpp:211-226 | a later attempt never waits less |
| `Backoff.OddMaximumRoundsUp` | cpp/src/orchestrator_service.cpp:211-226 | the one-millisecond excess occurs |
| `CommandIds.ChainUnique` | cpp/src/orchestrator_service.cpp:711-740 | event and depth determine a command: chains of retries do not branch |
| `ConfigStore.LogReplaysToSnapshot` | python/gnmi_server/redis_repository.py:164-210 | under any interleaving of concurrent Sets: revisions in the stream are 1, 2, 3, ..., stored versions never exceed the revision, the events replay to exactly the stored ids, ports and versions, and every snapshot was a matching within the port counts |
| `ConfigStore.SetIsAtomic` | python/gnmi_server/redis_repository.py:136-210 | only a client that reports a new version changes anything, and then by its whole Set applied to the snapshot it found; refused, unchanged and abandoned Sets change nothing |
| `SetMeaning.CommitLeaves` | python/gnmi_server/redis_repository.py:136-210 | under any interleaving, the step that commits a request leaves exactly the connections and fields the request's lists prescribe for what was stored right before, unchanged ones with their version, all others with the new one |
| `SetMeaning.AnswerLaw` | python/gnmi_server/redis_repository.py:136-210 | on a snapshot nobody wrote to meanwhile a client is refused exactly if a port is disabled or the resulting connections do not fit the ports, told "unchanged" exactly if the request leaves what is stored, and otherwise commits changes that lead to what the law says |
| `SetMeaning.LostRace` | python/gnmi_server/redis_repository.py:136-210 | an EXEC commits exactly if nothing watched was written; otherwise the client starts over, watching from now on, or gives up when no try is left |
| `SetTransaction.BuildCandidate` | python/gnmi_server/set_transaction.py:252-370 | accepted exactly if every connection of the result has both ports in range and no port is used twice; then the finalized snapshot and the changes to store |
| `SetTransaction.ApplyOperations` | python/gnmi_server/set_transaction.py:263-297 | the loop that applies the operations and remembers the ids it touches in order |
| `SetTransaction.Validate` | python/gnmi_server/set_transaction.py:299-325 | the occupancy check accepts exactly the admissible drafts, and the error it reports is real |
| `SetTransaction.CollectChanges` | python/gnmi_server/set_transaction.py:345-364 | the changes in order of first mention, without those that change nothing |
| `SetTransaction.SetLaw` | python/gnmi_server/set_transaction.py:205-249 | what a request means for one connection: the last replace wins over a delete, which wins over the stored value, and updates are overlaid |
| `SetMeaning.SetFields` | python/gnmi_server/set_transaction.py:263-297 | field by field: a connection is there exactly if an update or replace names it or it was stored and not deleted; each of input, output and admin status is that of the last update carrying it, else of the last replace (ENABLED if left out), else the stored one |
| `SetMeaning.FieldsAreDetermined` | python/gnmi_server/set_transaction.py:263-297 | that law leaves one possible value for every field |
| `SetMeaning.AcceptedIffPlaced` | python/gnmi_server/set_transaction.py:299-325 | accepted exactly if every resulting connection has both ports, each within 1 and its count, and no two share one |
| `SetMeaning.AcceptedLeaves` | python/gnmi_server/set_transaction.py:299-364 | storing the changes of an accepted request leaves exactly the fields of the law; a connection with its stored fields keeps its version, any other gets the new one |
| `SetMeaning.UnchangedIff` | python/gnmi_server/set_transaction.py:344-364 | no change is stored exactly if the law leaves everything as it is stored |
| `SetMeaning.ChangesInOrder` | python/gnmi_server/set_transaction.py:274-298 | changes come in the order in which the operations first mention their connections |
| `SetTransaction.StoredIsFinalized` | python/gnmi_server/set_transaction.py:252-370 | storing the changes of an accepted candidate leaves its ids and ports, and untouched or unchanged connections keep their version |
| `RedisTransactions.RefinesAtomic` | cpp/src/redis_repository.cpp:159-182 | however callers interleave WATCH, EXISTS, HGET and EXEC, the database is that of the committed operations run one after the other; no two share a marker, exactly their callers report success, and exhausted, throwing or late callers had no effect |
| `RedisTransactions.OneSuccessPerMarker` | cpp/src/redis_repository.cpp:260-446 | at most one caller per marker succeeds |
| `RedisTransactions.EffectWithMarker` | cpp/src/redis_repository.cpp:260-446 | a step changes the database exactly when a marker appears, and then performs that marker's whole operation |
| `RedisTransactions.PutIfAbsentEffect` | cpp/src/redis_repository.cpp:159-182 | only the key itself appears, with its fields |
| `RedisTransactions.ReplaceAndAppendEffect` | cpp/src/redis_repository.cpp:260-291 | the hash holds exactly the new fields, exactly one event is appended, nothing else changes |
| `RedisTransactions.AppendOnceEffect` | cpp/src/redis_repository.cpp:293-318 | exactly one event is appended, nothing else changes |
| `RedisTransactions.IncrementOnceEffect` | cpp/src/redis_repository.cpp:320-347 | every field grows by its increment, nothing else changes |
| `RedisTransactions.RecordApplyEffect` | cpp/src/redis_repository.cpp:349-390 | counters grow by their increments, the last latency is this one and the maximum the larger of both |
| `RedisTransactions.VersionsNeverGoBack` | cpp/src/redis_repository.cpp:392-446 | however callers interleave, a committing versioned write never replaces a hash by one with a lower version, leaves a newer hash exactly as it is, and has no hash that names another version than its marker |
| `RedisTransactions.VersionedWriteExact` | cpp/src/redis_repository.cpp:392-446 | a committing versioned write leaves every listed hash with exactly the given fields if its stored version is absent or at most the marker's, and as it was if higher; every other hash, marker and stream stays |
| `RedisTransactions.GivesUpOnlyWhenBeaten` | cpp/src/redis_repository.cpp:401-446 | a caller gives up only after an eighth EXEC before which a watched key was written, and throws only over a hash that names another version than its marker |
| `RedisTransactions.MaximumLatency` | cpp/src/redis_repository.cpp:349-390 | in every run the stored maximum is the largest of everything recorded |
| `RedisTransactions.LargestIsMaximum` | cpp/src/redis_repository.cpp:349-390 | that value bounds every recorded latency and is one of them or the initial one |
| `ConsumerGroup.SerializedDelivery` | cpp/src/redis_repository.cpp:505-587 | over every run of any number of consumers: at most one entry is pending, the acknowledged entries are a prefix, and a pending entry directly follows it |
| `ConsumerGroup.FirstDeliveryInOrder` | cpp/src/redis_repository.cpp:20-32 | an entry is handed out for the first time only after every earlier one was acknowledged, and to one consumer |
| `DeviceModel.InvOverRuns` | cpp/src/simulated_ocs_device.cpp:49-279 | over every sequence of apply, reset, inject, clear and admin calls: a partial bijection on in-range ports keyed by own non-empty ids, versions equal to fences, and a result cache whose keys are its queue without repeats within the cap |
| `DeviceModel.VerdictIsAcceptable` | cpp/src/simulated_ocs_device.cpp:76-134 | validation succeeds exactly if no member is older than its fence, every member is acceptable on its own and the result is a matching |
| `DeviceLaws.AcceptedExactly` | cpp/src/simulated_ocs_device.cpp:49-162 | an uncached apply succeeds exactly if it is atomic, no fault is armed, no member is below its fence, every member has an id, every upsert names ports within the counts that are enabled and up, and the resulting connections are a matching |
| `DeviceLaws.ReportedError` | cpp/src/simulated_ocs_device.cpp:71-144 | which error is reported: a stale member before anything else, then the first bad member (id, input, output; out of range, disabled, down), then the first clash in id order (input before output), then an armed failure or timeout, which is used up |
| `DeviceLaws.AcceptedLeaves` | cpp/src/simulated_ocs_device.cpp:145-162 | after a success each id holds what the last command for it says, each fence is the last version other than 0 given for it, and the connections under the batch's ids are reported in batch order |
| `DeviceLaws.AfterReset` | cpp/src/simulated_ocs_device.cpp:183-200 | whatever happened before, a reset leaves no connection, fence, cached result or fault and all ports usable; a hard reset is a new generation |
| `DeviceLaws.OnlyResetsChangeGeneration` | cpp/src/simulated_ocs_device.cpp:49-279 | no other call changes the generation, and fault and admin calls other than a drift keep connections, fences and cache |
| `DeviceLaws.PortCalls` | cpp/src/simulated_ocs_device.cpp:222-279 | a port fault, its clearing and an admin change affect that attribute of that port only, and nothing if it is out of range |
| `DeviceLaws.DownInputRefuses` | cpp/src/simulated_ocs_device.cpp:202-234 | from an input port fault on, until it is cleared or the device reset, no batch that is executed and connects the port succeeds or changes the connections |
| `DeviceLaws.DownOutputRefuses` | cpp/src/simulated_ocs_device.cpp:202-234 | the same for an output port |
| `DeviceLaws.ClearedPorts` | cpp/src/simulated_ocs_device.cpp:236-269 | a cleared port is usable exactly if it is enabled |
| `DeviceLaws.InjectedFaultHits` | cpp/src/simulated_ocs_device.cpp:136-144 | an injected error or timeout is what the next batch that would be accepted gets, and not once it was cleared |
| `DeviceLaws.FaultsAreOneShot` | cpp/src/simulated_ocs_device.cpp:136-144 | an armed fault hits one batch, changes nothing and is gone: the same batch is then accepted |
| `DeviceLaws.DriftTakesFirst` | cpp/src/simulated_ocs_device.cpp:212-221 | a drift takes away the connection with the smallest id and nothing else, not even its fence |
| `DeviceModel.ApplyAtomic` | cpp/src/simulated_ocs_device.cpp:49-162 | a failed apply changes neither connections nor ports nor fences, a successful one is the fold of the batch, a repeated one changes nothing |
| `DeviceModel.OrderIndependence` | cpp/src/simulated_ocs_device.cpp:74-161 | acceptance, matrix and fences of a batch with distinct ids do not depend on the order of its commands |
| `Connections.OrderFreeIff` | cpp/src/simulated_ocs_device.cpp:87-118 | every order of a batch gives the same matrix exactly if commands with the same id ask for the same thing |
| `DeviceModel.OrderIndependentIff` | cpp/src/simulated_ocs_device.cpp:74-161 | the device treats every order of a batch alike exactly if commands with the same id agree, or some member is refused on its own, or a fault is armed, or no order is a matching |
| `DeviceModel.RepeatedIdsAreOrderDependent` | cpp/src/simulated_ocs_device.cpp:87-118 | an upsert and a removal of the same new id leave different matrices in their two orders |
| `DeviceModel.FencesNeverDecrease` | cpp/src/simulated_ocs_device.cpp:76-85 | between resets no fence decreases |
| `DeviceModel.ReplayWindow` | cpp/src/simulated_ocs_device.cpp:53-69 | a recorded result stays in its place of the queue while fewer than 4096 newer results are recorded |
| `DeviceModel.RepeatedOperation` | cpp/src/simulated_ocs_device.cpp:53-69 | within that window repeating the operation id returns the first result and changes nothing |
| `DeviceModel.WindowIsSharp` | cpp/src/simulated_ocs_device.cpp:58-69 | the 4096th newer result evicts it |
| `SimulatedDevice.SimulatedOcsDevice.Create` | cpp/src/simulated_ocs_device.cpp:28-37 | a device is built exactly for positive port counts |
| `SimulatedDevice.SimulatedOcsDevice.ApplyConnections` | cpp/src/simulated_ocs_device.cpp:49-162 | the in-place apply computes the model's apply, keeps the representation invariant and never leaves its arrays |
| `SimulatedDevice.SimulatedOcsDevice.BuildIndexes` | cpp/src/simulated_ocs_device.cpp:120-135 | filling the two arrays entry by entry finds the first conflict or mirrors the candidate |
| `SimulatedDevice.SimulatedOcsDevice.GetConnections` | cpp/src/simulated_ocs_device.cpp:164-171 | all connections in id order |
| `SimulatedDevice.SimulatedOcsDevice.ResetDevice` | cpp/src/simulated_ocs_device.cpp:183-200 | everything cleared, the generation raised only by a hard reset |
| `SimulatedDevice.SimulatedOcsDevice.InjectFault` | cpp/src/simulated_ocs_device.cpp:202-234 | each fault as in the model, drift removing the first connection with its index entries |
| `SimulatedDevice.SimulatedOcsDevice.ClearFault` | cpp/src/simulated_ocs_device.cpp:236-269 | each fault cleared as in the model |
| `SimulatedDevice.SimulatedOcsDevice.SetPortAdminState` | cpp/src/simulated_ocs_device.cpp:271-279 | one port's admin state, or an error for a port out of range |
| `SimulatedDevice.SimulatedOcsDevice.ValidatePortAvailableNow` | cpp/src/simulated_ocs_device.cpp:290-303 | accepts exactly a port in range that is enabled and up, and otherwise reports out of range, disabled or down, in this order |
| `SimulatedDevice.IndexFindsConnection` | cpp/src/simulated_ocs_device.cpp:120-135 | every connection is found in both arrays under its own ports |
| `SimulatedDevice.IndexIsAConnection` | cpp/src/simulated_ocs_device.cpp:120-135 | every connected port in either array belongs to a connection |
| `SimulatedDevice.IndexesAreInverse` | cpp/src/simulated_ocs_device.cpp:120-135 | the two arrays are inverse to each other |
| `Reconciler.BuildReconciliationPlan` | cpp/src/reconciler.cpp:11-70 | refuses exactly repeated ids; otherwise the plan is sorted, its commands are the desired ones and one removal per unwanted connection, its drifts exactly the missing, mismatched and unexpected ones, one per id |
| `Reconciler.NoDriftIffSame` | cpp/src/reconciler.cpp:30-66 | no drift exactly when desired and actual are the same map |
| `Reconciler.PlanYieldsDesired` | cpp/src/reconciler.cpp:25-68 | applying the plan to the actual matrix gives the desired one |
| `Reconciler.PlanAcceptedIff` | cpp/src/reconciler.cpp:53-58 | the device accepts the plan exactly under a condition that can be read off the device and the desired state |
| `Reconciler.ReconciliationConverges` | cpp/src/reconciler.cpp:11-70 | one apply makes the device hold exactly the desired matrix and the next plan converged, exactly under that condition; otherwise nothing changes |
| `Reconciler.PositiveVersionsReconcile` | cpp/src/reconciler.cpp:53-58 | with positive applied versions the condition is that desired members are acceptable, not below their fence, and a matching |
| `Reconciler.HiddenFence` | cpp/src/simulated_ocs_device.cpp:145-152 | two calls lead to a connection with version 0 and fence 5, for which the plan that removes it is refused |
| `Reconciliation.ReconcileDevice` | cpp/src/reconciler.cpp:11-70 | one round on the device class, with no fault armed and a new operation id, converges exactly if nothing had drifted or the desired state is reconcilable; converged means exactly the desired connections, otherwise they are untouched |
| `Subscription.NoUpdateLost` | python/gnmi_server/subscribe_transaction.py:188-248 | in every interleaving of writers and reader, whenever the reader has caught up the last recorded payload of every subscription is the current view, and payloads recorded one after the other differ |
| `Subscription.HeldExactly` | python/gnmi_server/subscribe_transaction.py:52-75 | path by path: a caught-up reader holds a resource, with its current value, exactly if it is stored, of the device, and of the path's kind and id |
| `Subscription.FetchReads` | python/gnmi_server/subscribe_repository.py:71-99 | a fetch reads on from the position, in order, a hundred events or up to the end of the stream |
| `Subscription.MatchesOnStream` | python/gnmi_server/subscribe_transaction.py:46-76 | every resource of a subscription is announced on the stream the subscription tails |
| `Subscription.EndFetchKeepsInv` | python/gnmi_server/subscribe_repository.py:71-99 | moving the positions after a read leaves every event it passes in the batch |
| `FrameCodec.Encode` | cpp/src/uds_codec.cpp:42-67 | refuses a wrong version or a payload over the limit, otherwise header and payload |
| `FrameCodec.Decode` | cpp/src/uds_codec.cpp:69-119 | refuses short, foreign, unsupported, unknown, oversized or mismeasured input, otherwise the frame |
| `FrameCodec.AppendBigEndian` | cpp/src/uds_codec.cpp:11-18 | appends the big-endian bytes |
| `FrameCodec.ByteAt` | cpp/src/uds_codec.cpp:11-18 | the i-th byte is the value shifted down to it, most significant first |
| `FrameCodec.ReadBigEndian` | cpp/src/uds_codec.cpp:20-29 | the value of the next bytes and the offset behind them |
| `FrameCodec.DecodeEncode` | cpp/src/uds_codec.cpp:42-119 | decoding an encoded frame returns it exactly if its message type is known |
| `FrameCodec.EncodeDecode` | cpp/src/uds_codec.cpp:42-119 | every byte string that decodes is re-encoded to the same bytes |

## Left out

- gRPC, JSON text, sockets, threads, logging, health checks, the web and command-line front ends: input and output only. Batches, results and payloads are passed as values.
- Redis itself is modelled as maps and sequences with WATCH, EXISTS, HGET, KEYS and EXEC as separate steps. In the machines of the orchestrator and the daemon the reads before a durable write are one step with it, because each of these processes is the only writer of the keys it reads there.
- Keys are structured values instead of strings joined by `|`, so ids are taken to be free of that separator; ids are non-empty, batches name each id once, port counts are positive and below 65535, and versions from Set are positive, as the callers of this code ensure.
- Alarms, port faults seen by the services, generation recovery and publishing a reconciliation across crashes; the reconciler's plan and one apply of it are modelled.
- The copies of application records in DEVICE_DB: their markers are modelled, their contents are written and never read by these paths.
- Configuration events for a single `connection` with reload of the snapshot: Set emits batch events only.
- Commands for another device than the connected one: the daemon model has one device, and what the device call returns is arbitrary.
- Time: the clock is set by the environment, to any value; it decides when a retry is due. Other timestamps, optical power and messages are dropped.
- Liveness: nothing says that a message is eventually processed.
- Pipeline.DeviceFollowsConfig: apply results that are timeouts are excluded, since the device there has no fault armed; which results the orchestrator reads, and when, is otherwise arbitrary.
- SetTransaction.Validate: the order in which connections are examined is by id, while the code follows insertion order; the contract does not depend on it and does not say which of several faults is reported.
- Subscription.NoUpdateLost: the device is taken to be registered, so a collection is never missing; events in a batch are handled in any order, which includes the code's order by timestamp.
