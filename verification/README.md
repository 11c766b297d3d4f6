# Verification of the LightAI control plane and agent

This project models the parts of LightAI whose correctness spans several handlers or a whole run, in
Dafny 4.11, and proves what they promise. `dafny verify dfyconfig.toml` verifies everything.

| files | what they model |
|---|---|
| `Protocol`, `ProtocolInvariants`, `LeaseLedger`, `TaskLifeCycle`, `SingleActive`, `SweepAndClaim`, `ControlPlane`, `HandOff`, `HandOffRuns`, `TimeoutRuns`, `Races`, `Outcomes` | the control-plane protocol over the shared tables of tasks, instances, leases, deployments, run plans and groups |
| `Bytes`, `PairLists`, `Gguf`, `GgufReader`, `Quantization` | the GGUF header, key/value and tensor reader |
| `DockerStream` | the decoder of Docker's multiplexed log stream |
| `KeyValues`, `GpuLines`, `GpuProtocol` | the output of the GPU collectors: its key=value fields, its device, metric and status records, its lines |
| `ConfigSet`, `OverrideEffects`, `OverlappingWrites`, `TemplateDiff` | the tiered configuration set, its overrides and what they do, and the comparison with a template |
| `Readiness`, `ReadinessRuns`, `ReadinessOutcomes`, `DeploymentSettings` | the readiness of node backend runtimes and the deployments created from them |
| `GpuMerge`, `GpuExporter`, `GpuRegistry`, `Inventory` | the merged GPU list, its exporter, the registry that keeps it, and the server's GPU table |
| `Containers` | the container driver over the in-memory Docker store |
| `Results`, `Texts`, `Collections` | small shared datatypes and facts about finite sets and maps |

Handlers are classes over `map` fields, one method a handler, each tied to a step function of a state
machine (`Apply`); a run is any sequence of steps, and the lemmas speak of every run. The lemmas named
`...Outcome` say of one step what it does, by the rows before and after alone, without the functions the
step is made of. A handler is atomic unless a row below says otherwise. Time, generated UUIDs, what the
agent answers, health checks and preflight results are inputs. Row ids and texts that are only compared
are integers.

## What the proofs found

- The start guard lists pending and in_progress tasks but not claimed ones. Exactly because of that,
  two instances of one deployment can run at once: `SingleActive.OneLiveIffCareful` gives the exact
  condition, `Races.TwoRunningInstances` a run from the empty database.
- Stopping while a start task is claimed, and a result that arrives after the stop, is how it happens:
  start results overwrite the instance state unconditionally.
- A start task that times out keeps its GPUs reserved, since the start sets no lease expiry and the
  sweep fails only expired leases (`LeaseLedger.TimedOutStartKeepsGpu`). The unique index on
  reserved and active leases then refuses every start that needs those GPUs until a stop of the
  instance completes or the deployment is deleted (`TimeoutRuns.TimedOutStart` is such a run).
- A timed-out task row keeps failing its instance at every heartbeat of its node, also after later
  results (`SweepAndClaim.BeatFailsIff`, `TimeoutRuns.StoppedThenFailed`). The kind of the task does not
  matter: a request for logs that times out fails the instance.
- Claims of one agent within one second share a timestamp, and a heartbeat reads back the ten oldest rows
  with it. So a task can be handed out twice, and a task can be claimed and never handed out, which ends
  in a timeout and a failed instance. `HandOff.MayHandOffExactlyIff` and `HandOff.MustHandOffExactlyIff`
  say exactly when a heartbeat hands out what it claimed; `HandOffRuns` has a run for each failure. With
  distinct timestamps every task is handed out exactly as often as it is claimed.
- The stop handler waits between its instances. A delete during the wait lets the next turn insert a
  task for a deployment that is gone (`Races.StopTurnStaysClosed`, `Races.StopAfterDelete`).
- Overrides that give environment variables both as `env` and as `runtime.env` depend on the order of
  the Go map (`ConfigSet.OverlapDependsOnOrder`); `OverlappingWrites.WritesCommuteIff` says which
  overlapping writes do not. A parameter without `key` writes the code `<nil>`.
- A readiness check writes its answer by row id, so a row that is patched, edited or replaced while the
  agent is asked, or whose template changes behind a blank image reference, becomes deployable as
  something no check inspected: `ReadinessRuns.FreshIffUndisturbed` gives the exact condition,
  `ReadinessRuns.DisturbedRun` the runs.
- A deployment may be created with another image than the one inspected: an override may replace it, and
  behind a blank reference the template's image is inspected while the image copied into the row is
  deployed (`ReadinessRuns.DeployedImageIff`, `ReadinessRuns.OverriddenImage`, `ReadinessRuns.BlankReference`).
- The inventory marks disappeared GPUs by `vendor:uuid`: a GPU without a UUID is marked unavailable by
  the report that contains it, and vendors with a colon can hide a disappearance
  (`Inventory.ReportAgreesIff`, `Inventory.HiddenRemoval`, `Inventory.EmptyUuidIsMarked`).
- Container names keep twelve characters of the instance id, so a stop can remove the container of
  another instance (`Containers.StopHitsOtherIff`).
- The bytes of a tensor's dimensions are counted in 32 bits: with 2^29 dimensions or more a tensor is not
  read to its end (`Quantization.TensorRoundTripIff`).
- The template sync takes the template whole under both strategies (`TemplateDiff.SyncWithTemplate`),
  and the difference is not empty when the template has a further field that prints `<nil>`.
- For a key without a device the merged GPU takes the first metric, not the last as for keys with one.

## Model

| member | source | states |
|---|---|---|
| `Protocol.RunConcat` | internal/server/api/agent_handlers.go:936-1140 | A run is its handlers one after the other: running two pieces is running their concatenation, and it is legal exactly when both pieces are |
| `ProtocolInvariants.SweepRows` | internal/server/api/agent_handlers.go:382-450 | A sweep settles no lease and adds no row; it only times tasks out and fails instances and deployments |
| `ProtocolInvariants.HeartbeatRows` | internal/server/api/agent_handlers.go:277-377 | An accepted heartbeat changes a task row in three ways only: not at all, timed out, or claimed; leases and the shape of every row stay |
| `ProtocolInvariants.StartKeepsLeases` | internal/server/db/db.go:564 | The unique index keeps at most one reserved or active lease per GPU, and the start never sets an expiry |
| `ProtocolInvariants.StartKeepsInv` | internal/server/api/deployment_lifecycle_handlers.go:1225-1270 | A start keeps every invariant: closure, life cycle, GPU exclusivity, one start task per instance |
| `ProtocolInvariants.HeartbeatKeepsInv` | internal/server/api/agent_handlers.go:277-377 | A heartbeat keeps every invariant |
| `ProtocolInvariants.SettleKeepsInv` | internal/server/api/agent_handlers.go:990-1138 | A settled result keeps every invariant |
| `ProtocolInvariants.DeleteKeepsClosed` | internal/server/api/deployment_lifecycle_handlers.go:425-474 | After a delete no task, lease, instance, plan or group refers to a missing deployment |
| `ProtocolInvariants.DeleteKeepsInv` | internal/server/api/deployment_lifecycle_handlers.go:425-474 | A delete keeps every invariant |
| `ProtocolInvariants.InvStep` | internal/server/api/agent_handlers.go:277-450 | Every event of the protocol keeps every invariant |
| `ProtocolInvariants.ReachableInv` | internal/server/api/deployment_lifecycle_handlers.go:398-484 | In every reachable state: referential closure, the task life cycle, one reserved or active lease per GPU, no lease with an expiry, one start task per instance |
| `LeaseLedger.DueAfterResult` | internal/server/api/agent_handlers.go:1012-1125 | One result moves a lease that has the status due to it to the status due after the result |
| `LeaseLedger.SettleKeepsLedger` | internal/server/api/agent_handlers.go:1012-1125 | A result keeps the ledger: every lease of its instance gets the status due to it |
| `LeaseLedger.HeartbeatKeepsLedger` | internal/server/api/agent_handlers.go:296-450 | Claims and timeouts leave every lease with the status due to it |
| `LeaseLedger.LedgerStep` | internal/server/api/deployment_lifecycle_handlers.go:1217-1276 | Every event keeps the ledger |
| `LeaseLedger.LeasesFollowHistory` | internal/server/api/agent_handlers.go:990-1138 | In every reachable state a lease has exactly one start task and the status fixed by the accepted results: with no completed stop reserved, active or failed as its start task is unfinished or timed out, completed or failed; with one, failed if the start failure came first and released otherwise |
| `LeaseLedger.TimedOutStartKeepsGpu` | internal/server/api/agent_handlers.go:382-450 | A start task that timed out leaves its GPUs reserved, and every start that needs one of them is refused |
| `LeaseLedger.LeaseFinal` | internal/server/api/agent_handlers.go:1012-1125 | Over every run a released or failed lease stays as it is while its row exists |
| `TaskLifeCycle.TaskGone` | internal/server/api/deployment_lifecycle_handlers.go:442-446 | A deleted task never comes back |
| `TaskLifeCycle.TaskLife` | internal/server/api/agent_handlers.go:963-969 | Over every run completed, failed and timed_out are absorbing, nothing returns to pending, and generation, attempt and retry_count rise together by the number of claims |
| `TaskLifeCycle.CountersTellClaims` | internal/server/api/agent_handlers.go:294-312 | In every reachable state the counters of a row tell whether it was ever claimed: 0, 1, 0 or 1, 2, 1 |
| `SingleActive.LiveBefore` | internal/server/api/agent_handlers.go:1051 | No event but an accepted start makes an instance active, that is neither stopped nor failed, that was not |
| `SingleActive.StartKeepsOneLive` | internal/server/api/deployment_lifecycle_handlers.go:362-387 | An accepted start keeps at most one active instance per deployment exactly when no start task of the deployment is claimed |
| `SingleActive.OtherKeepsOneLive` | internal/server/api/deployment_lifecycle_handlers.go:1427 | Every other event keeps it unconditionally |
| `SingleActive.OneLiveIffCareful` | internal/server/api/deployment_lifecycle_handlers.go:362-387 | Over every run there is at most one instance of a deployment that is neither stopped nor failed, or has an unfinished start task, at every moment exactly when no start is accepted while a start task of that deployment is claimed |
| `SingleActive.FromEmptyDatabase` | internal/server/api/deployment_lifecycle_handlers.go:362-387 | The same from the empty database |
| `SweepAndClaim.SweepCloses` | internal/server/api/agent_handlers.go:382-450 | After one sweep of a node: no unfinished task on it exceeds its timeout, instances named by timed-out tasks are failed, no reserved lease has a past expiry, deployments that own a failed instance are failed |
| `SweepAndClaim.CleanIsFixed` | internal/server/api/agent_handlers.go:382-450 | A state with nothing left to sweep is unchanged by the sweep |
| `SweepAndClaim.SweepTwice` | internal/server/api/agent_handlers.go:382-450 | A second sweep at the same time changes nothing |
| `SweepAndClaim.TimeoutOutlivesResults` | internal/server/api/agent_handlers.go:396-403 | A timed-out task fails its instance again at every later heartbeat of the node, whatever results were accepted in between |
| `SweepAndClaim.BeatFailsIff` | internal/server/api/agent_handlers.go:382-450 | An accepted heartbeat fails an instance exactly when a task of its node that has timed out, now or earlier, names it, and leaves every other instance as it is |
| `TimeoutRuns.TimedOutStart` | internal/server/api/agent_handlers.go:382-450 | A legal run from the empty database whose start task times out unclaimed: every start that needs its GPU is refused from then on |
| `TimeoutRuns.StoppedThenFailed` | internal/server/api/agent_handlers.go:396-403 | A legal run from the empty database in which a request for logs times out, the instance is stopped with success, and the next heartbeat makes it failed |
| `SweepAndClaim.ReadBackCandidates` | internal/server/api/agent_handlers.go:327-334 | The read-back finds the rows just claimed and, apart from them, the rows the same agent claimed under the same timestamp |
| `SweepAndClaim.FreshStampHandsOff` | internal/server/api/agent_handlers.go:327-334 | With a timestamp not used before, the agent is handed exactly the tasks it just claimed |
| `SweepAndClaim.ReusedStampRepeats` | internal/server/api/agent_handlers.go:327-334 | With rows claimed before under the timestamp and room in the batch, the answer holds one of those rows |
| `SweepAndClaim.HandedOutInTime` | internal/server/api/agent_handlers.go:277-334 | No task handed out has outlived its timeout |
| `SweepAndClaim.ReturnsAreClaims` | internal/server/api/agent_handlers.go:327-334 | Over runs whose heartbeats carry distinct timestamps per agent, a task is handed out as often as it is claimed |
| `SweepAndClaim.ClaimedOnce` | internal/server/api/agent_handlers.go:294-312 | A task is claimed at most once in a run, and never after it left pending |
| `SweepAndClaim.HandedOutOnce` | internal/server/api/agent_handlers.go:277-377 | Over every such run from the empty database no task is handed out twice |
| `SweepAndClaim.BeatServesTen` | internal/server/api/agent_handlers.go:305-311 | A heartbeat of its node that leaves a task pending serves ten tasks ahead of it |
| `SweepAndClaim.BoundedWaiting` | internal/server/api/agent_handlers.go:305-311 | When newer tasks have later creation times, a pending task with k pending tasks ahead of it on its node leaves pending within k/10 + 1 heartbeats |
| `HandOff.AnswersAllowed` | internal/server/api/agent_handlers.go:327-334 | The possible answers of a heartbeat are exactly the ten-oldest answers over the rows just claimed and the rows claimed before under the timestamp |
| `HandOff.MayBeHandedOutIff` | internal/server/api/agent_handlers.go:327-334 | Some possible answer holds a competing task exactly when fewer than ten competing tasks are strictly older |
| `HandOff.MustBeHandedOutIff` | internal/server/api/agent_handlers.go:327-334 | Every possible answer holds it exactly when fewer than ten others are at least as old |
| `HandOff.MayHandOffExactlyIff` | internal/server/api/agent_handlers.go:277-377 | Some answer is exactly the tasks just claimed if and only if no task was claimed before under the timestamp, or ten were just claimed and none claimed before is older than one of them |
| `HandOff.MustHandOffExactlyIff` | internal/server/api/agent_handlers.go:277-377 | Every answer is exactly the tasks just claimed if and only if no task was claimed before under the timestamp, or ten were just claimed and all claimed before are strictly newer |
| `HandOff.NeverHandedOutLater` | internal/server/api/agent_handlers.go:327-334 | A task left out of the answer of the heartbeat that claimed it is in no later answer, once its agent's heartbeats carry other timestamps |
| `HandOff.OverdueFailsInstance` | internal/server/api/agent_handlers.go:382-403 | An overdue task that is unfinished, or timed out already, fails its instance at the next accepted heartbeat of its node, whatever its kind |
| `HandOff.LostTaskFailsInstance` | internal/server/api/agent_handlers.go:382-403 | A claimed task for which no result comes in a run times out at the first late heartbeat of its node, and its instance fails with it |
| `HandOffRuns.HandedOutTwice` | internal/server/api/agent_handlers.go:327-334 | A legal run from the empty database in which two heartbeats of one second hand out the same task |
| `HandOffRuns.LostTask` | internal/server/api/agent_handlers.go:327-334 | A legal run from the empty database in which ten older claims of one second keep a request for logs out of every answer; it is claimed, never handed out, and fails its instance when it times out |
| `Races.StopTurnStaysClosed` | internal/server/api/deployment_lifecycle_handlers.go:1426-1447 | A turn of the stop handler that runs after its wait keeps the tables closed exactly when the instance still belongs to the deployment: a delete during the wait leaves an orphan task |
| `Races.StopAfterDelete` | internal/server/api/deployment_lifecycle_handlers.go:1426-1447 | After the deployment is deleted, a dispatching turn left of its stop handler breaks the closure of the tables whatever the state was |
| `Races.SuccessRuns` | internal/server/api/agent_handlers.go:1051 | A success without an agent id settles any unfinished start task and sets its instance running |
| `Races.LateResultRuns` | internal/server/api/agent_handlers.go:1051 | Whenever the guard lets a start pass beside a claimed start task, the two later successes leave both instances running |
| `Races.TwoRunningInstances` | internal/server/api/deployment_lifecycle_handlers.go:381 | A legal run from the empty database that ends with two running instances of one deployment |
| `Outcomes.ActiveRefusesStart` | internal/server/api/deployment_lifecycle_handlers.go:362-378 | A start is refused, and changes nothing, as long as an instance of the deployment has neither stopped nor failed |
| `Outcomes.IndexRefusesIff` | internal/server/db/db.go:564 | The unique index refuses the rows of a start exactly when with them a GPU would have two leases neither released nor failed |
| `Outcomes.StartOutcome` | internal/server/api/deployment_lifecycle_handlers.go:1101-1276 | A start goes through exactly when the deployment exists and has no active instance and no start or stop task pending or in progress, the preflight passed and no GPU gets a second holder; it adds exactly its pending instance, plan, group, reserved leases and start task of 300 seconds; otherwise nothing changes |
| `Outcomes.ResultOutcome` | internal/server/api/agent_handlers.go:936-1140 | For every report of an open task that is not another agent's and not of another status: the task is completed exactly when the status is absent, completed or success, success is not false and error_message, or error where that is absent, is absent or empty, and failed otherwise; the instance and its leases follow by the kind of the task; any other report changes nothing |
| `Outcomes.BeatOutcome` | internal/server/api/agent_handlers.go:195-450 | A heartbeat of another agent changes nothing; any other puts the node online, times out exactly its overdue open tasks, claims the ten oldest waiting in time, hands over the ten oldest claimed under its timestamp, fails exactly the instances a timeout of the node names and the deployments of failed instances, and touches no lease, plan or group |
| `Outcomes.DeleteOutcome` | internal/server/api/deployment_lifecycle_handlers.go:425-474 | A delete removes the deployment and exactly its instances, plans, groups, leases and tasks; every row of another deployment stays as it was |
| `Outcomes.RegisterOutcome` | internal/server/api/agent_handlers.go:108-180 | Registering binds a node to its first agent, or again to the same one, and puts it online; any other agent is refused |
| `Outcomes.NodesOutcome` | internal/server/api/resource_handlers.go:184-289 | Stale nodes go offline; a system snapshot of a node's own agent puts exactly that node online |
| `Outcomes.LogsOutcome` | internal/server/api/deployment_lifecycle_handlers.go:1625-1664 | A request for logs adds one task of 30 seconds for the node of the plan's instance while that node is online, and otherwise nothing |
| `ControlPlaneServer.Oldest` | internal/server/api/agent_handlers.go:305-309 | A row with the least creation time |
| `ControlPlaneServer.OldestTen` | internal/server/api/agent_handlers.go:305-309 | The rows ORDER BY created_at LIMIT 10 may answer: distinct candidates in order, and all left out only when ten are listed and none is newer |
| `ControlPlaneServer.ControlPlane.HandleRegister` | internal/server/api/agent_handlers.go:108-180 | Inserts or updates the node; a node bound to another agent is left alone |
| `ControlPlaneServer.ControlPlane.MarkOfflineNodes` | internal/server/api/agent_handlers.go:693-728 | Marks the stale nodes offline |
| `ControlPlaneServer.ControlPlane.HandleResourceReport` | internal/server/api/resource_handlers.go:184-289 | Finds the node of the agent, and with a system snapshot sets it online; an unknown or blank agent changes nothing |
| `ControlPlaneServer.ControlPlane.HandleCreateDeployment` | internal/server/api/deployment_lifecycle_handlers.go:185-197 | Inserts a saved deployment |
| `ControlPlaneServer.ControlPlane.SweepExpiredTasks` | internal/server/api/agent_handlers.go:382-450 | The four UPDATE statements, in order, leave the sweep of the protocol |
| `ControlPlaneServer.ControlPlane.HandleHeartbeat` | internal/server/api/agent_handlers.go:195-273 | Refuses another agent's node; otherwise sweeps, claims and returns as the protocol allows |
| `ControlPlaneServer.ControlPlane.ClaimAndReturnTasks` | internal/server/api/agent_handlers.go:277-377 | Claims the ten oldest pending rows and reads back by status, agent and timestamp |
| `ControlPlaneServer.ControlPlane.HandleTaskResult` | internal/server/api/agent_handlers.go:936-1140 | Ignores unknown, finished and foreign results and unrecognised statuses; settles the others |
| `ControlPlaneServer.ControlPlane.SettleTask` | internal/server/api/agent_handlers.go:990-1138 | Closes the task and settles the instance named by the task, or by the body when the task names none |
| `ControlPlaneServer.ControlPlane.SettleInstance` | internal/server/api/agent_handlers.go:1012-1125 | New instance state, leases and history of an accepted result |
| `ControlPlaneServer.ControlPlane.ActiveDeploymentRun` | internal/server/api/deployment_lifecycle_handlers.go:362-387 | The guard of a start: active instances, then pending and in_progress start or stop tasks |
| `ControlPlaneServer.ControlPlane.HandleStart` | internal/server/api/deployment_lifecycle_handlers.go:1101-1276 | Accepts exactly when the guard, the preflight and the unique lease index do, and inserts all rows or none |
| `ControlPlaneServer.ControlPlane.InsertLeases` | internal/server/api/deployment_lifecycle_handlers.go:1247-1257 | Inserting lease by lease succeeds exactly when the index refuses none, and adds exactly the leases |
| `ControlPlaneServer.ControlPlane.HandleStop` | internal/server/api/deployment_lifecycle_handlers.go:1375-1485 | A legal run of one turn for every instance not stopped and no other. Afterwards each of them is unwanted, and stopping if it was running; exactly those whose node is online have one new pending stop task of 90 seconds on that node; the deployment is stopped and unwanted; every other row is as it was |
| `ControlPlaneServer.ControlPlane.StopTurn` | internal/server/api/deployment_lifecycle_handlers.go:1426-1447 | One turn: mark the instance, dispatch a stop task exactly when the node it is on is online |
| `ControlPlaneServer.ControlPlane.HandleLogs` | internal/server/api/deployment_lifecycle_handlers.go:1625-1664 | Dispatches a logs task when the plan, the instance and an online node exist |
| `ControlPlaneServer.ControlPlane.HandleDelete` | internal/server/api/deployment_lifecycle_handlers.go:398-484 | Cancels, then deletes in the order the foreign keys demand: exactly the rows of the deployment go |
| `Bytes.LittleEndianRoundTrip` | internal/agent/collector/gguf_reader.go:61-82 | A number that fits its width is read back from its little-endian bytes |
| `Bytes.SignedRoundTrip` | internal/agent/collector/gguf_reader.go:148-175 | Two's complement numbers within the width are read back |
| `Bytes.BigEndianRoundTrip` | internal/agent/runtime/docker_real.go:276 | A number that fits its width is read back from its big-endian bytes |
| `Bytes.BigEndianDigits` | internal/agent/runtime/docker_real.go:276 | Every byte string is the big-endian form of the number it reads as |
| `Bytes.FourBytes` | internal/agent/runtime/docker_real.go:276 | What four bytes read as in either order |
| `Gguf.StringRoundTrip` | internal/agent/collector/gguf_reader.go:198-211 | A string of at most 10 MiB is read back from its length and bytes |
| `Gguf.ScalarRoundTrip` | internal/agent/collector/gguf_reader.go:142-192 | Every scalar value is read back under the code the format gives its type, 0 to 7 and 10 to 12 |
| `Gguf.ValueRoundTrip` | internal/agent/collector/gguf_reader.go:142-235 | Every well-formed value, arrays of arrays included, is read back from its encoding under the code of its type (8 for a string, 9 for an array), and the bytes after it are left |
| `Gguf.ElementsRoundTrip` | internal/agent/collector/gguf_reader.go:214-235 | The same for the elements of an array, up to 1,000,000 |
| `Gguf.EntryRoundTrip` | internal/agent/collector/gguf_reader.go:123-139 | A key and its value are read back from the key, the code of the value's type and the value |
| `Gguf.EntriesRoundTrip` | internal/agent/collector/gguf_reader.go:84-93 | A list of pairs is read back in order |
| `PairLists.OverwriteLastWins` | internal/agent/collector/gguf_reader.go:84-93 | Storing pairs one after the other gives the map in which every key has its last value |
| `Gguf.FileRoundTrip` | internal/agent/collector/gguf_reader.go:60-93 | For every well-formed list of pairs, written after the letters GGUF with the codes of their types, the reader rebuilds the last-wins map and stops at the tensor table |
| `Gguf.ReadIsWellFormed` | internal/agent/collector/gguf_reader.go:142-235 | Whatever the reader accepts is a well-formed value of the type whose code it was asked for: within its width, 10 MiB for strings and 1,000,000 elements for arrays |
| `Gguf.MetaIsWellFormed` | internal/agent/collector/gguf_reader.go:43-93 | A file whose metadata is read starts with GGUF, its version and its two counts, and the map is the last-wins map of as many well-formed pairs as it says |
| `Gguf.ValueStable` | internal/agent/collector/gguf_reader.go:142-235 | A successful read of a value is unchanged by appended bytes, which stay unread |
| `Gguf.MetaStable` | internal/agent/collector/gguf_reader.go:60-93 | A successful read of the metadata is unchanged by appended bytes, which stay unread |
| `GgufReader.Stream.ReadFull` | internal/agent/collector/gguf_reader.go:206-209 | Takes exactly n bytes or fails |
| `GgufReader.Stream.ReadNumber` | internal/agent/collector/gguf_reader.go:61-82 | Moves the position as the number reader says |
| `GgufReader.Stream.ReadString` | internal/agent/collector/gguf_reader.go:198-211 | Moves the position as the string reader says; rejects lengths over 10 MiB |
| `GgufReader.Stream.ReadValue` | internal/agent/collector/gguf_reader.go:142-195 | Terminates on every input, and answers and moves as the value reader says |
| `GgufReader.Stream.ReadArray` | internal/agent/collector/gguf_reader.go:214-235 | Terminates because the header consumes input; rejects counts over 1,000,000 |
| `GgufReader.Stream.ReadElements` | internal/agent/collector/gguf_reader.go:226-234 | The loop over the elements reads what the recursive reader reads |
| `GgufReader.Stream.ReadKV` | internal/agent/collector/gguf_reader.go:123-139 | One pair, as the pair reader says |
| `GgufReader.Stream.ReadKVs` | internal/agent/collector/gguf_reader.go:84-93 | The loop over the pairs leaves the last-wins map |
| `GgufReader.Stream.ReadMeta` | internal/agent/collector/gguf_reader.go:43-93 | The whole header: magic, version, counts, pairs |
| `Quantization.WinnerIsMaximal` | internal/agent/collector/gguf_reader.go:349-392 | At every point of the counting loop the winner so far has the largest count so far |
| `Quantization.MostFrequentFirst` | internal/agent/collector/gguf_reader.go:386-391 | A most frequent type that is counted first wins: a tie never replaces it |
| `Quantization.QuantizedIffNamedSo` | internal/agent/collector/gguf_reader.go:281-318 | The quantized types are exactly those whose names start with q or iq, the plain ones those named f32 and f16 |
| `Quantization.CandidateIs` | internal/agent/collector/gguf_reader.go:394-412 | The answer is a most frequent type, unless that is named f32 or f16 and a type named q or iq is seen on more than a quarter as many tensors: then it is such a type |
| `Quantization.TensorRoundTripIff` | internal/agent/collector/gguf_reader.go:354-384 | An encoded tensor is read to its end with its type exactly when it has fewer than 2^29 dimensions, whose byte count is computed in 32 bits |
| `Quantization.TableRoundTrip` | internal/agent/collector/gguf_reader.go:349-392 | The types of a whole encoded table are read in order, whatever follows it |
| `Quantization.AnswersAreCandidates` | internal/agent/collector/gguf_reader.go:398-412 | Over all orders of the tensor table and of the count map the possible answers are exactly: a most frequent type, or, where that is f16 or f32, any quantized type above a quarter of its count if there is one |
| `Quantization.OrderIrrelevantIff` | internal/agent/collector/gguf_reader.go:398-412 | The answer does not depend on either order exactly when there is one such candidate |
| `Quantization.UniqueWinnerDecides` | internal/agent/collector/gguf_reader.go:398-412 | A unique most frequent type and at most one qualifying quantized type leave one candidate |
| `Quantization.ReadTensorType` | internal/agent/collector/gguf_reader.go:354-384 | One tensor: name, dimension count, dimensions (their byte count wraps at 32 bits), type, offset |
| `Quantization.CountOne` | internal/agent/collector/gguf_reader.go:386-391 | Counting one more tensor keeps the counts and the winner right |
| `Quantization.CountTensors` | internal/agent/collector/gguf_reader.go:349-392 | The loop counts the tensors up to the first unreadable one and ends with their winner |
| `Quantization.PickAnswer` | internal/agent/collector/gguf_reader.go:394-412 | Visiting the counts in any order picks an allowed answer |
| `Quantization.Detect` | internal/agent/collector/gguf_reader.go:344-413 | The whole detection answers one of the allowed answers for the table it read |
| `DockerStream.SplitIsUnique` | internal/agent/runtime/docker_real.go:262-304 | An input splits into frames and a partial header in one way at most |
| `DockerStream.SplitIsSound` | internal/agent/runtime/docker_real.go:262-304 | Every input either splits so or breaks at a frame with too long or too short a payload |
| `DockerStream.BreakIsUnique` | internal/agent/runtime/docker_real.go:275-290 | Where and why an input breaks is determined by the input |
| `DockerStream.NothingLost` | internal/agent/runtime/docker_real.go:292-300 | Every payload byte is in exactly one of the two outputs |
| `DockerStream.WrittenByKind` | internal/agent/runtime/docker_real.go:292-300 | Frames of kind 2 are stderr and all others stdout, each stream in the order of its frames |
| `DockerStream.Decode` | internal/agent/runtime/docker_real.go:262-304 | Succeeds exactly on frames with payloads of at most 100 MiB followed by fewer than 8 bytes; stderr is then the ordered type-2 payloads and stdout all the others; otherwise the error of the first bad frame |
| `DockerStream.DecodeFrom` | internal/agent/runtime/docker_real.go:266-301 | The reading loop, with its early exit, its skip of empty payloads and its two errors |
| `KeyValues.QuoteEndsIff` | internal/agent/collector/protocol.go:123-138 | The closing quote is found at the end of the value exactly when the value has no unescaped quote and no dangling backslash |
| `KeyValues.FieldRoundTrip` | internal/agent/collector/protocol.go:97-148 | A printed field, quoted or bare, is read back exactly when it is clean; any other reads as something else |
| `KeyValues.PrintRoundTrip` | internal/agent/collector/protocol.go:91-152 | Printed fields parse back to their pairs exactly when every field is clean |
| `KeyValues.LineRoundTrip` | internal/agent/collector/protocol.go:91-152 | Clean fields of which the last is quoted are read back from the line that holds them, with no blank after the last |
| `KeyValues.StoredLastWins` | internal/agent/collector/protocol.go:148 | Parsed and stored, clean fields give the last-wins map |
| `KeyValues.ParseErrorsAre` | internal/agent/collector/protocol.go:106-146 | A pair is refused exactly where an equals sign is missing, where nothing follows it, or where a quote is opened that nothing closes |
| `KeyValues.FindQuote` | internal/agent/collector/protocol.go:126-133 | The scan for the closing quote, skipping escaped characters, stays in range |
| `KeyValues.ParseValueFrom` | internal/agent/collector/protocol.go:117-146 | The value part of a pair, from an index |
| `KeyValues.ParsePairFrom` | internal/agent/collector/protocol.go:106-146 | One pair, from an index |
| `KeyValues.ParseKeyValues` | internal/agent/collector/protocol.go:91-152 | On every input the index stays in range, the parser terminates, and returns the map or the error of the grammar |
| `GpuLines.NumbersReadBack` | internal/agent/collector/protocol.go:162-170 | Printed 64-bit indexes and sizes are read back |
| `GpuLines.SizesOutOfRange` | internal/agent/collector/protocol.go:167-170 | Sizes past 64 bits are read as the largest number, and a size followed by something else as 0 |
| `GpuLines.IndexesOutOfRange` | internal/agent/collector/protocol.go:162-165 | Indexes past 64 bits and whatever is not digits after a sign are refused |
| `GpuLines.DeviceLineOutcome` | internal/agent/collector/protocol.go:154-188 | A device line is refused for the first required field it lacks or for its index; every other field reads as given or as its default |
| `GpuLines.DeviceRoundTrip` | internal/agent/collector/protocol.go:154-188 | A device whose texts are clean is read back from the line printed for it |
| `GpuLines.NothingMissing` | internal/agent/collector/protocol.go:155-160 | The required-field check passes exactly when every required field is there |
| `GpuLines.ParseDeviceLine` | internal/agent/collector/protocol.go:154-188 | The first missing field, the bad index, or the record with its defaults |
| `GpuLines.MetricRoundTrip` | internal/agent/collector/protocol.go:190-231 | A metric whose texts are clean and whose readings print as numbers is read back from the line printed for it, missing readings included |
| `GpuLines.MetricLineOutcome` | internal/agent/collector/protocol.go:190-231 | The same for a metric line; a reading is absent when its field is, or when it says nothing in one of five ways |
| `GpuLines.TrimDrops` | internal/agent/collector/protocol.go:40 | Blanks around a text do not count, and a text without them is kept |
| `GpuLines.ParseMetricLine` | internal/agent/collector/protocol.go:190-231 | The first missing field, the bad index, or the metric with the readings that are there |
| `GpuProtocol.ItemRoundTrip` | internal/agent/collector/protocol.go:40-80 | One printed line, trimmed and split at its type word, adds the printed device or metric to the report, or sets the printed diagnosis |
| `GpuProtocol.OutputRoundTrip` | internal/agent/collector/protocol.go:26-88 | What is printed for any list of devices, metrics, statuses and comments is read back whole and in order, from any state of the report |
| `GpuProtocol.StatusRoundTrip` | internal/agent/collector/protocol.go:59-67 | A status is read back from the line printed for it; its message counts only when something is wrong |
| `GpuProtocol.NoiseIsSkipped` | internal/agent/collector/protocol.go:40-43 | Comments and blank lines change nothing |
| `GpuProtocol.BadLineStops` | internal/agent/collector/protocol.go:46-80 | After any printed items the reading ends at the first bad line, with its number and the diagnosis so far, whatever comes after it |
| `GpuProtocol.UnknownWordRefused` | internal/agent/collector/protocol.go:78-79 | Fields after a word that is none of the three are refused |
| `GpuProtocol.ParseRecord` | internal/agent/collector/protocol.go:58-80 | STATUS sets the diagnosis, DEVICE and METRIC add a record or fail, any other word is an error |
| `GpuProtocol.ParseFields` | internal/agent/collector/protocol.go:46-56 | A line without a space is refused; otherwise its fields are parsed after the type word |
| `GpuProtocol.ParseProtocolOutput` | internal/agent/collector/protocol.go:26-88 | Reads any output line by line, skips blanks and comments, and stops at the first bad line with its number; on printed devices, metrics and statuses it returns exactly those |
| `ConfigSet.ItemsAreIndependent` | internal/server/api/configset_helpers.go:383-419 | What the item of a code becomes depends on that item and on the writes to that code alone |
| `ConfigSet.OrderIndependence` | internal/server/api/configset_helpers.go:421-488 | Overrides whose entries write disjoint codes leave the same set whatever order the Go map is visited in |
| `ConfigSet.OverlapDependsOnOrder` | internal/server/api/configset_helpers.go:469-485 | Environment variables given both as env and as runtime.env are merged in one order and replaced in the other |
| `OverlappingWrites.WritesCommuteIff` | internal/server/api/configset_helpers.go:383-488 | For every set and any two writes: both orders leave the same set exactly when the codes differ, or the values or switches are equal, or a switch turns on an item that is there, or a merge finds its variables in the value put and in a default it would change, or two merges agree where they overlap |
| `ConfigSet.OthersAreKept` | internal/server/api/configset_helpers.go:383-419 | Codes no entry writes keep their item, and the members beside items are kept |
| `ConfigSet.LastValueReadsBack` | internal/server/api/configset_helpers.go:37-51 | A non-nil value written last is the value configValue reads; a merge reads as the merged variables |
| `ConfigSet.LastWriteDecidesEnabled` | internal/server/api/configset_helpers.go:220-230 | The last write of a code decides whether it is enabled; writing a value enables it |
| `ConfigSet.ValidityIff` | internal/server/api/configset_helpers.go:539-583 | A valid tiered set stays valid exactly when no code without an item is first only enabled or disabled |
| `ConfigSet.FallbackNeedsBlankKey` | internal/server/api/configset_helpers.go:434-446 | The code, name and cli_name fallbacks are tried only when key is present and prints blank; a missing key writes the code <nil> |
| `OverrideEffects.DisabledIsDisabled` | internal/server/api/configset_helpers.go:454-468 | Whatever the order of the map: a code named in disabled_parameters by its key, or by its code where the key prints blank, is not enabled afterwards and keeps its value |
| `OverrideEffects.ParameterReadsBack` | internal/server/api/configset_helpers.go:427-453 | A code named once in parameter_values, by the first of key, code, name and cli_name that does not print blank, reads back the value given unless it is nil, and is enabled unless its entry says enabled: false |
| `OverrideEffects.ParameterSwitches` | internal/server/api/configset_helpers.go:447-452 | Without a value it keeps the one it had, and is enabled exactly as its entry says |
| `OverrideEffects.EntryReadsBack` | internal/server/api/configset_helpers.go:475-485 | An entry of its own gives a code its value, read back unless nil, and enables it unless it says enabled: false beside a value |
| `OverrideEffects.EnvironmentReadsBack` | internal/server/api/configset_helpers.go:469-474 | The variables under env are added to those the set had and win over them |
| `OverrideEffects.UnnamedIsKept` | internal/server/api/configset_helpers.go:421-488 | A code no entry names keeps its item, and nothing but the items changes |
| `OverrideEffects.ValueFillsTiers` | internal/server/api/configset_helpers.go:357-405 | Writing a value fills the local and the effective value, enables, and tells layer and owner |
| `OverrideEffects.ValueReadIs` | internal/server/api/configset_helpers.go:37-51 | The value read is the effective one, failing that the item's default, failing that the default given, nil values skipped |
| `ConfigSet.ConfigDocument.SetConfigValue` | internal/server/api/configset_helpers.go:383-408 | Writes local and effective value, enables, and records the provenance, creating or replacing tiers that are not objects |
| `ConfigSet.ConfigDocument.SetConfigEnabled` | internal/server/api/configset_helpers.go:410-419 | Writes the state tier only; a missing item gets nothing else |
| `ConfigSet.ConfigDocument.MergeEnvironment` | internal/server/api/configset_helpers.go:469-474 | Merges into the object read; a default that served as the value changes with it |
| `ConfigSet.ConfigDocument.ApplyList` | internal/server/api/configset_helpers.go:427-468 | The loops over parameter_values and disabled_parameters |
| `ConfigSet.ConfigDocument.ApplyConfigOverrides` | internal/server/api/configset_helpers.go:421-488 | Applies the entries in some order of the map; with disjoint entries the result is that of every order |
| `DeploymentSettings.StoredImageIff` | internal/server/api/deployment_lifecycle_handlers.go:46-55 | The settings a deployment is created with name a given image exactly when the edited form does, or else the last override of the image (nil leaves the default), or else the row's reference, or for a blank reference the configuration copied |
| `DeploymentSettings.CompatReadsBack` | internal/server/api/config_edit_handlers.go:169-219 | Every value given by an older field is read back under its own code from the stored settings; every other code reads as the edited form or the overrides left it |
| `DeploymentSettings.MaterializeCompat` | internal/server/api/config_edit_handlers.go:169-219 | The values made from service and placement are written one code after the other |
| `DeploymentSettings.StoreSettings` | internal/server/api/deployment_lifecycle_handlers.go:154-169 | Copy with the checked image, overrides, edited form, older fields, in this order |
| `Readiness.CheckDecides` | internal/server/api/runtime_handlers.go:1015-1077 | A check leaves a row deployable exactly when the image list was answered, ImageInspect found the image and no mismatch was confirmed; missing_image exactly on a clear not-found |
| `Readiness.ReadinessStep` | internal/server/api/node_runtime_handlers.go:126-205 | After any step a row is deployable exactly when the step ended a check that confirmed it, or it was and the step neither edits its source, disables, enables nor ends a check that does not confirm |
| `Readiness.RunIsValid` | internal/server/api/runtime_handlers.go:863-946 | In every reachable state: deployable rows have image_present and docker_available, a node and runtime have one row, its template exists, and every deployment's source row exists |
| `ReadinessRuns.DeployableWasConfirmed` | internal/server/api/runtime_handlers.go:434-719 | In every reachable state a deployable row was confirmed by a check that began and ended in the run, and its image reference and ConfigSet are unchanged since it ended |
| `ReadinessRuns.UnchangedIffQuiet` | internal/server/api/runtime_handlers.go:450-467 | Between any two points of any run, what a check of a row reads stays the same exactly when no event changes the reference or the ConfigSet, deletes the row, or changes the image of the template behind a blank reference |
| `ReadinessRuns.FreshIffUndisturbed` | internal/server/api/runtime_handlers.go:450-717 | A deployable row still is what its check inspected exactly when no such event fell between the start and the end of the check and, for a blank reference, the template's image was kept afterwards |
| `ReadinessRuns.UninterruptedIsFresh` | internal/server/api/runtime_handlers.go:450-717 | In every run without an event between the two ends of a check, a deployable row has the reference and the ConfigSet a check confirmed |
| `ReadinessRuns.DisturbanceUnnoticed` | internal/server/api/runtime_handlers.go:697-717 | From every valid state: any such event during a check that confirms, short of a delete, leaves the row deployable as something not inspected |
| `ReadinessRuns.DisturbedRun` | internal/server/api/runtime_handlers.go:697-717 | The same in runs from the empty state, for a new row and every such event |
| `ReadinessRuns.DisturbingEvents` | internal/server/api/node_runtime_handlers.go:126-205 | Patching the reference, patching the ConfigSet, editing the configuration, and changing the template behind a blank reference are such events |
| `ReadinessRuns.ReplacedDuringCheck` | internal/server/api/runtime_handlers.go:697-717 | A run in which a row is deleted and enabled anew under its id during a check: it is deployable with an image no check asked about |
| `ReadinessRuns.DeploymentsAreFresh` | internal/server/api/deployment_lifecycle_handlers.go:92-106 | Every deployment in a reachable state was created with the settings its row and its request give, holds them until they are changed, and its row had been confirmed by a check before |
| `ReadinessRuns.ReferenceIsInspected` | internal/server/api/runtime_handlers.go:462-464 | For a deployable row not disturbed during its check, an image reference that is not blank is the image inspected |
| `ReadinessRuns.DeployedImageIff` | internal/server/api/deployment_lifecycle_handlers.go:46-169 | The deployment's image is the one inspected exactly when the request, the row's reference and its ConfigSet keep it; a request that leaves the image alone keeps it for a reference that is not blank if the check was not disturbed |
| `ReadinessRuns.OverriddenImage` | internal/server/api/deployment_lifecycle_handlers.go:154-162 | A run whose deployment overrides the image: the inspected image is not the one stored |
| `ReadinessRuns.BlankReference` | internal/server/api/runtime_handlers.go:462-464 | A run with a blank reference: the template's new image is inspected, the image copied earlier is deployed |
| `Readiness.NodeRuntimes.HandleEnable` | internal/server/api/runtime_handlers.go:818-953 | Inserts a row or resets the one there is; never to a deployable status |
| `Readiness.NodeRuntimes.BeginCheck` | internal/server/api/runtime_handlers.go:434-467 | Reads the row and its template and keeps the image to ask about |
| `Readiness.NodeRuntimes.FinishCheck` | internal/server/api/runtime_handlers.go:469-719 | The levels of evidence in order, then one UPDATE by id, whatever the row is by then |
| `Readiness.NodeRuntimes.HandlePatch` | internal/server/api/node_runtime_handlers.go:126-205 | Collects the assignments: config_set_json wins over config_set, disabling wins over the recheck |
| `Readiness.NodeRuntimes.UpdateConfigEditObject` | internal/server/api/config_edit_handlers.go:255-257 | A configuration edit resets the readiness |
| `Readiness.NodeRuntimes.HandleDelete` | internal/server/api/node_runtime_handlers.go:209-238 | Refused while a deployment or an active instance refers to the row |
| `Readiness.NodeRuntimes.HandleDeleteTemplate` | internal/server/api/runtime_handlers.go:268-293 | Refused by the foreign key while a row refers to the template |
| `Readiness.NodeRuntimes.HandleCreateDeployment` | internal/server/api/deployment_lifecycle_handlers.go:65-198 | Exactly from a deployable row with a configuration, with the settings stored for it |
| `Readiness.NodeRuntimes.ChangeDeployment` | internal/server/api/config_edit_handlers.go:258-260 | Later changes replace the settings and keep the source |
| `ReadinessOutcomes.CheckOutcome` | internal/server/api/runtime_handlers.go:469-719 | For every way the agent may answer: exactly which status the check writes, and what it writes of Docker and of the image; every other column and row stays |
| `ReadinessOutcomes.AskOutcome` | internal/server/api/runtime_handlers.go:434-467 | A check asks about the image of the row, or of its template where the row names none |
| `ReadinessOutcomes.EnableOutcome` | internal/server/api/runtime_handlers.go:818-953 | Enabling resets exactly the row of the node and runtime, or inserts one with the image given or else the template's, with the status that what the server knows of the node decides |
| `ReadinessOutcomes.PatchOutcome` | internal/server/api/node_runtime_handlers.go:126-205 | A patch that claims evidence or blanks the name is refused; any other sets what it gives, disables, or asks for a new check where it touches reference, facts or configuration |
| `ReadinessOutcomes.EditOutcome` | internal/server/api/config_edit_handlers.go:255-257 | An edit of the configuration stores it, asks for a new check, and touches nothing else |
| `ReadinessOutcomes.RemovalOutcome` | internal/server/api/node_runtime_handlers.go:209-238 | A row goes exactly unless a deployment or an active instance uses it, a template exactly unless a row does |
| `ReadinessOutcomes.CreateOutcome` | internal/server/api/deployment_lifecycle_handlers.go:65-198 | A deployment is created exactly from a row that is ready, with or without warnings, and has a configuration |
| `GpuMerge.FirstsAreFirst` | internal/agent/collector/collector.go:165-173 | The kept positions are, in order, the first occurrences of keys not seen before |
| `GpuMerge.NormalizedKeys` | internal/agent/collector/collector.go:149-258 | No key comes twice in the merged list, and its keys are exactly those of the devices and the metrics |
| `GpuMerge.NormalizedKeysAre` | internal/agent/collector/collector.go:149-258 | Devices come first in first-seen order, then unmatched metrics in first-seen order |
| `GpuMerge.DeviceIsReported` | internal/agent/collector/collector.go:165-222 | The first device of a key is reported: identity, driver and status are its own, used and free memory and readings those of the last metric of the key, name, total and health the metric's where it has them; without a metric they are zero, absent and unknown |
| `GpuMerge.MetricIsReported` | internal/agent/collector/collector.go:225-255 | The first metric of a key no device has is reported by itself, as available |
| `GpuMerge.KeysCollideIff` | internal/agent/collector/collector.go:137-142 | Keys of colon-free vendors are equal for one GPU only, or where an index prints like the other's UUID, or for two negative indexes |
| `GpuMerge.ItoaInjective` | internal/agent/collector/collector.go:260-271 | Indexes print differently unless both are negative |
| `GpuMerge.DecimalDigits` | internal/agent/collector/collector.go:260-271 | Ten times a number and a digit is printed as the number and the digit |
| `GpuMerge.FillFromMetric` | internal/agent/collector/collector.go:175-219 | The field rules of the merge, one assignment after the other |
| `GpuMerge.IndexMetrics` | internal/agent/collector/collector.go:150-159 | The metric map holds the last metric of every key |
| `GpuMerge.NormalizeGPUs` | internal/agent/collector/collector.go:149-258 | The two loops with their seen set compute the merged list |
| `GpuExporter.NothingSuppressedIff` | internal/agent/metrics/metrics.go:196-203 | The duplicate filter suppresses nothing exactly when no two filter keys are equal |
| `GpuExporter.SamplesAre` | internal/agent/metrics/metrics.go:206-233 | The samples offered are those of the readings of every GPU, each with its own value and labels |
| `GpuExporter.SampleKeysEqualIff` | internal/agent/metrics/metrics.go:192-194 | Filter keys are equal exactly for one series of one vendor, UUID and printed index |
| `GpuExporter.SampleKeyNames` | internal/agent/metrics/metrics.go:192-194 | Equal filter keys name the same series of the same GPU key when vendor and UUID hold no NUL |
| `GpuExporter.ExportIsComplete` | internal/agent/metrics/metrics.go:184-237 | Over a merged list whose vendors and UUIDs hold no NUL every sample is sent |
| `GpuExporter.GpuCollector.Emit` | internal/agent/metrics/metrics.go:196-203 | One sample through the filter |
| `GpuExporter.GpuCollector.Collect` | internal/agent/metrics/metrics.go:184-237 | Sends what the filter lets through of every reading of every GPU, in order |
| `GpuRegistry.ReportIsMerged` | internal/agent/collector/registry.go:91-97 | Every report is the merge of the lists kept; the fallback to remembered resources is never needed |
| `GpuRegistry.ListsAreJoined` | internal/agent/collector/registry.go:40-75 | The lists of a cycle are those of the collectors that are available, one after the other |
| `GpuRegistry.CycleOutcome` | internal/agent/collector/registry.go:76-122 | A cycle keeps the new lists, or the last ones where the new are empty, gives every metric the name of the last device with its UUID, and reports the merge of the lists as they were before that |
| `GpuRegistry.PairingChangesNames` | internal/agent/collector/registry.go:109-122 | Pairing changes names in the merged list and nothing else |
| `GpuRegistry.RetentionRepeats` | internal/agent/collector/registry.go:78-97 | However many cycles come back empty, the last good report is repeated, its names changing at most once |
| `GpuRegistry.Registry.PairMetricsWithDevices` | internal/agent/collector/registry.go:109-122 | Every metric takes the name of the last device with its UUID |
| `GpuRegistry.Registry.Collect` | internal/agent/collector/registry.go:36-106 | One cycle: collect, keep or replace the last lists, merge, pair |
| `Containers.StepsKeepConsistent` | internal/agent/runtime/docker_fake.go:62-216 | Starts and stops keep the container map and the name index mutually inverse |
| `Containers.StopUndoesStart` | internal/agent/runtime/docker.go:238-293 | Stop after a successful start gives back the store, whatever was in it |
| `Containers.StopIsIdempotent` | internal/agent/runtime/docker.go:249-258 | A second stop changes nothing, and after a stop no container has the name |
| `Containers.StartOutcome` | internal/agent/runtime/docker.go:38-233 | A start goes through exactly for a Docker runtime whose name, lightai- and the first twelve characters of the id, is free, when the container starts, still runs and is healthy; it adds one running container under that name, and otherwise nothing |
| `Containers.StopOutcome` | internal/agent/runtime/docker.go:238-293 | A stop removes the container that has the name, with the name, and nothing else |
| `Containers.StopHitsOtherIff` | internal/agent/runtime/docker.go:560-565 | Stopping an instance removes the container of another exactly when the first twelve characters of their ids agree |
| `Containers.FakeDockerClient.ContainerCreate` | internal/agent/runtime/docker_fake.go:62-102 | Adds one created container under a free name, or refuses |
| `Containers.FakeDockerClient.ContainerStart` | internal/agent/runtime/docker_fake.go:104-129 | Created to running, then the hook; the injected error only sets the exit code |
| `Containers.FakeDockerClient.ContainerStop` | internal/agent/runtime/docker_fake.go:131-146 | Running to exited; a missing container is an error |
| `Containers.FakeDockerClient.ContainerInspect` | internal/agent/runtime/docker_fake.go:148-180 | Looks a container up by id, then by name |
| `Containers.FakeDockerClient.ContainerRemove` | internal/agent/runtime/docker_fake.go:205-216 | Removes the container and its name; a missing one is no error |
| `Containers.DockerRuntimeDriver.Discard` | internal/agent/runtime/docker.go:302-365 | Diagnosing and removing the container just created gives back the store before it |
| `Containers.DockerRuntimeDriver.Start` | internal/agent/runtime/docker.go:38-233 | Succeeds exactly when the runtime is docker, the name is free, the start is not refused, the container still runs and the health check passes; then exactly one running container is added, otherwise nothing is |
| `Containers.DockerRuntimeDriver.Stop` | internal/agent/runtime/docker.go:238-293 | Removes the container the derived name stands for; a missing one counts as stopped |
| `Inventory.UpsertRows` | internal/server/api/resource_handlers.go:315-371 | An upsert touches only the row of its node and UUID, or adds it, with the node's tenant |
| `Inventory.UpsertAllExtends` | internal/server/api/resource_handlers.go:294-373 | After all upserts old rows are kept, only reported UUIDs of the node changed, and rows stay unique |
| `Inventory.UpsertOutcome` | internal/server/api/resource_handlers.go:315-371 | A reported GPU changes exactly the row of its node and UUID, which keeps its tenant and PCI bus id, or adds one; a missing total is what is used and free together, in 64 bits |
| `Inventory.ReportOutcome` | internal/server/api/resource_handlers.go:292-392 | A report touches rows of its node alone, keeps every row's tenant, adds rows with the node's tenant, and without a GPU or for an unknown node changes nothing |
| `Inventory.StaleOutcome` | internal/server/api/resource_handlers.go:424-463 | Stale rows of the node, and no others, become unavailable |
| `Inventory.TransferOutcome` | internal/server/api/agent_handlers.go:791-933 | A node moves to a named tenant with all its rows exactly if the caller may and nothing is running there or leased |
| `Inventory.RunIsValid` | internal/server/api/agent_handlers.go:880-922 | In every reachable state a node and UUID have one row at most, and every GPU row carries its node's tenant, across register, report, stale marking and transfer |
| `Inventory.ReportAgreesIff` | internal/server/api/resource_handlers.go:292-392 | After a report of distinct non-empty UUIDs each reported GPU has a row holding what was reported, and the rows that are not unavailable are the reported GPUs that are not, exactly when no row left out has the key of a reported GPU |
| `Inventory.HiddenRemoval` | internal/server/api/resource_handlers.go:376-392 | A legal run from the empty state in which a GPU whose vendor has a colon is gone from the report and stays available |
| `Inventory.ColonFreeNeverCollides` | internal/server/api/resource_handlers.go:294-300 | Vendors without a colon never collide |
| `Inventory.EmptyUuidIsMarked` | internal/server/api/resource_handlers.go:376-392 | With vendors free of colons, a GPU without a UUID is stored and marked unavailable by the same report |
| `Inventory.GpuInventory.UpsertGpu` | internal/server/api/resource_handlers.go:315-371 | One GPU: insert with the node's tenant, or update all but tenant and PCI bus id |
| `Inventory.GpuInventory.MarkDisappeared` | internal/server/api/resource_handlers.go:376-392 | The marking loop, one UPDATE by node and UUID after the other |
| `Inventory.GpuInventory.HandleResourceReport` | internal/server/api/resource_handlers.go:292-392 | The whole GPU part of a report |
| `Inventory.GpuInventory.HandlePatchNodeTenant` | internal/server/api/agent_handlers.go:791-933 | Refused without permission, with reserved or active leases or with active instances; otherwise node and rows move together |
| `Inventory.GpuInventory.MarkStaleGPUs` | internal/server/api/resource_handlers.go:424-463 | Marks the stale rows of the node |
| `TemplateDiff.EmptyIff` | internal/server/api/deployment_lifecycle_handlers.go:2026-2060 | No difference is listed exactly when the template has no further field and every field prints alike |
| `TemplateDiff.AppliedPrintsLikeTemplate` | internal/server/api/deployment_lifecycle_handlers.go:2026-2060 | Applied to the old items, the differences give items that print like the template's, for non-nil items |
| `TemplateDiff.AppliedIsTemplateIff` | internal/server/api/deployment_lifecycle_handlers.go:2031-2044 | They give the template's items themselves exactly when no two different items of a field print alike |
| `TemplateDiff.SyncReportsAllIff` | internal/server/api/deployment_lifecycle_handlers.go:1984-1998 | Every changed field is reported exactly under the same condition |
| `TemplateDiff.ComputeConfigSetDiffs` | internal/server/api/deployment_lifecycle_handlers.go:2026-2060 | Lists no field twice, exactly the fields that differ, with both values, the deployment's own fields first |
| `TemplateDiff.SyncWithTemplate` | internal/server/api/deployment_lifecycle_handlers.go:1982-2002 | Whatever the strategy, the stored items are the template's and every difference is reported as changed |

## Left out

- HTTP decoding and encoding, routing, sessions, authorization, audit and logging: plumbing. Tenant and
  permission checks of the handlers are inputs where they decide a branch.
- SQL: tables are maps and a handler's statements run one after the other; driver errors, partial
  failure of a transaction and mixed timestamp formats are not modelled.
- Columns that no modelled branch reads: container_id, endpoint_url, last_error, payloads, results,
  timestamps other than created_at, claimed_at and expires_at, names and descriptions.
- Run-plan resolution, preflight, semantic configuration, catalogs and the configuration editor's own
  rules: their outcome is an input.
- ControlPlaneServer.ControlPlane.HandleStop: the waits between its turns let other handlers run; the
  method takes the turns one after the other, and `Races.StopTurnStaysClosed` says what a delete in
  between does.
- ControlPlaneServer.ControlPlane.HandleLogs: the wait for the task's result and the reply are left out.
- Readiness: the agent-evidence form of the enable handler (checkOnly) has no route and is not modelled;
  the checks of a deployment request other than the runtime row are one input, and so is the ConfigSet
  a row is enabled with. A check reads its row and its template in one step.
- DeploymentSettings: configuration texts are read as the objects they print; the set the edited form
  leaves and the values made from service and placement JSON are inputs.
- Readiness.NodeRuntimes.ChangeDeployment: a patch, an edit of the configuration and a synchronisation
  with the template are one event that may store any settings.
- ConfigSet: values that Go would share between the overrides and the set are copies, so a later merge
  never writes back into the overrides; printing and JSON parsing of strings are parameters; numbers are
  integers.
- ConfigSet.ConfigDocument: the typed readers of the set (strings, lists, launcher and parameter
  definitions) would only add easy members.
- Gguf: the known fields taken out of the map and the float conversions are left out; a float keeps its
  bits. A file is its bytes, and reader errors other than the end of input are not modelled.
- Quantization: the table of display names is left out; tensor types are their codes, and codes without a
  name share one.
- DockerStream: reader errors other than the end of input are not modelled.
- GpuProtocol: the 64 KiB line limit of the scanner is left out; parsing a floating-point number is a
  parameter, and readings are exact reals.
- GpuExporter: values are exact reals, not 64-bit floats; the snapshot's lock is left out.
- Containers: times and the contents of logs are left out (a log is its number of lines), and container
  options are one value; ids are 12 characters of a UUID and given fresh. The hook of the in-memory
  client may change the state of the started container only.
- Inventory: system, filesystem and network snapshots, and the collected and reported times are left out.
- The real Docker client around the stream decoder, smoke tests of instances, model-type detection by
  file name, web, scripts and documentation.
