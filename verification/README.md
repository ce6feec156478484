# A verified model of the mesh gateway

`ttgwlib` is the host side of a Bluetooth Mesh gateway: it drives a radio device over a serial
line, schedules tasks for mesh nodes, provisions them and updates their firmware. This project
models its stateful parts in Dafny and proves what they keep over whole runs.

| part | files |
|---|---|
| task scheduler of the nodes | `Tasks`, `SchedulerSpec`, `SchedulerLocality`, `SchedulerShape`, `SchedulerRuns`, `SchedulerProgress`, `SchedulerSleep`, `SchedulerMessages`, `SchedulerWork`, `SchedulerHeads`, `SchedulerSlots`, `SchedulerWhitelist`, `SchedulerRetries`, `SchedulerScenarios`, `Scheduler` |
| command protocol with the device | `Protocol`, `ProtocolProgress`, `TxManager`, `Handles` |
| serial framing | `Bytes`, `Framing` |
| firmware images | `HexText`, `OtaImage`, `OtaMeaning`, `OtaFormat`, `OtaUpdate` |
| gateway-to-gateway transport | `TransportSpec`, `Transport`, `ReceivePath` |
| replay protection and sequence numbers | `ReplayProtection` |
| provisioning | `ProvisioningSpec`, `ProvisioningScan`, `Provisioning` |
| shared | `Options`, `Finite` |

`dafny verify dfyconfig.toml` checks everything.

## How it is built

Objects whose methods change fields are classes. Where the properties span whole runs, each method
is proved to carry out a function on the value of its object (`view`, `View()`); the functions live
in the `...Spec` modules and in `Protocol`, and the theorems are about runs of those functions.
A dispatched event, a call of the application, an expiring timer and a locked region are one atomic
step each, and steps interleave freely.

**Scheduler.** `SchedulerRuns.Step` is one step of the scheduler. Its functions have the unguarded
dictionary and list lookups of the source as preconditions, so that a step is defined only when no
lookup fails; `Scheduler.TaskQueue.Perform` carries out any step from any reachable state. Time is
left to the environment: an armed timer may expire at any step, and its event may be dispatched at
any later one. The tasks an application adds are the retrying ones and the reset; the models of the
many sensors are one retrying task named by its acknowledgement. The configuration callback is the
list of tasks it adds for its own node. It has to add at least one: with the default callback, which
adds none, the lookups behind it fail, and `SchedulerShape.CallbackLookup` says exactly when. A node
is its hardware address with its board, because the source compares nodes by hardware address.
The functions say how a step is computed; what it does is stated apart from them, of `Step`, its log
and its runs: `SchedulerMessages.StepTells` what is sent, `SchedulerWork.StepLeaves` what stays queued,
`SchedulerSlots.EventSlots` who holds a slot and `SchedulerSleep.StepPeriod` which sleep time is known.

**Protocol.** The transmission thread, a configuration thread, the thread that dispatches events and
the device are steps over two first-in first-out lines. The device answers in order, has at most one
response a command, and has room for as many keys and addresses as the gateway's limits, with one key
an address. A single caller waits at a time. That calls and messages stay in order is proved whatever
tokens the device gives; that no permit is lost and that everything gets sent, of a device that
accepts no packet under the token of another it works on. `Protocol.PermitsAreCounted` says what a
device that does otherwise costs, and `Protocol.EarlyReuseLosesAPermit` is a run.

**Firmware images.** The reference is the flash: a byte for every address, 0xFF where nothing was
written. The lines of a file are text; a printer of the Intel Hexadecimal Object File Format
(Revision A), with record lengths, load offsets and checksums, is the partner of the loader. The
writes of a file are defined as the format defines them, with records that wrap at the end of their
segment; the loader only adds, and `OtaFormat.AddressingAgrees` says when that is the same.

**Provisioning.** The manager and its provisioner, which call each other, are one object. Only the
provisioner stores nodes.

**Receiving.** Whether a packet raises an error in reception depends on the packets before it,
because a message whose number the replay cache has seen is dropped unread; the framing is proved
for every such dependence. `ReceivePath` puts the cache in front of the reassembly.

## What turned out not to hold

- The callback lookups at `ttgwlib/models/task_queue.py:219` and `:238` succeed only if a task is
  left: `SchedulerShape.CallbackLookup`, in both directions.
- A node being configured can lose its queued work: exactly when it is mains powered and its task
  runs out of retries, by `SchedulerProgress.ConfiguringLosesWork`; `SchedulerScenarios.NodeLosesItsWork`
  is a run.
- A node that has been configured can be dropped from the whitelist: exactly when the application
  forbids it or a configuration timeout that had expired before the end is dispatched, by
  `SchedulerWhitelist.FinishedNodesStay`; `SchedulerScenarios.ConfiguredNodeIsDropped` is a run.
- Two nodes with one device key get a handle bound to the address of the first:
  `Handles.HandleManager.GetDevkeyHandle`, in both directions; `Handles.SharedKey` sends the packets.
- A file that writes no address twice can be loaded as other flash contents than the format says:
  exactly when a byte other than 0xFF lies behind the first gap, follows on behind the end-of-file
  record, or belongs to a record that wraps and goes on beyond the end of its segment or of the 4 GB,
  by `OtaFormat.LoadsExactlyWhen`; `OtaFormat.AddressingAgrees` says which records wrap.
  `OtaFormat.EmptyRecordLosesData`, `OtaFormat.DataBehindTheEndLoads` and
  `OtaFormat.WrappingRecordLoadsOn` are files, one for each. As an image, with the byte at address 0
  of a blank one as a case apart: `OtaFormat.ImageLoadsExactlyWhen`.
- An update that stops between its first frame and its last leaves the mesh disabled, and one without
  an image or with a malformed signature sends nothing: `OtaUpdate.CopyUpdate`.
  `OtaUpdate.UpdateWithLongSignature` is one that disables the mesh and does nothing else.
- A stream of fragments whose start is lost fills the packet of its source from before and delivers
  that, the payload before it once more or a mixture of the two: exactly when each slot has data or
  gets some, by `TransportSpec.LostStart`. `TransportSpec.MixedPayload` is a run.
- A fragment that is overtaken on the way is dropped by the replay cache, and its payload never comes
  out: `ReceivePath.OrderDecides`, in both directions. `ReceivePath.OvertakenFragment` is a run.
- A restart that finds no sequence number file starts again at 0: `ReplayProtection.RestartGoesOnAbove`,
  in both directions; `ReplayProtection.LostRecordRepeats` is a run.
- When a wanted node is announced while all addresses are taken, no node is ever provisioned again,
  even after others are removed: `ProvisioningSpec.GetsStuck` and `ProvisioningSpec.StuckForever`.
  `ProvisioningSpec.StuckRun` is a run from the start.

## Model

| member | source | states |
|---|---|---|
| SchedulerRuns.SafetyInEveryRun | ttgwlib/models/task_queue.py:204-288 | in every reachable state stored queues are non-empty and their heads can be completed, a wake task is only ever first, configuring nodes hold slots, at most ten whitelisted nodes do, each slot has a running or an expired undispatched timer, and every running timer belongs to a slot |
| SchedulerRuns.StepKeepsInv | ttgwlib/models/task_queue.py:47-325 | every API call, dispatched event and expiring timer keeps that invariant, from any state that has it |
| SchedulerRuns.LookupsSucceed | ttgwlib/models/task_queue.py:270-271 | after the callbacks of any event the lookup of the head of the node's queue succeeds |
| SchedulerRuns.DeliverRemoves | ttgwlib/models/task_queue.py:164-182 | a dispatched configuration timeout takes its node out of the queue, both configuration tables and the whitelist, and touches no other node |
| SchedulerRuns.WhitelistRemovePool | ttgwlib/whitelist.py:34-47 | forbidding a node takes it out of the whitelist with its slot, its running timer and, if it was listed, its queue |
| SchedulerRuns.RestartPool | ttgwlib/events/time_events.py:22-32 | restarting a node's timeout leaves every slot covered by its own timer |
| SchedulerRuns.EnterPool | ttgwlib/models/task_queue.py:197-200 | giving a slot keeps at most ten, all whitelisted and each covered by its timer, whatever timers expired before |
| SchedulerShape.CallbackLookup | ttgwlib/models/task_queue.py:216-238 | the lookup after the callback succeeds exactly if the callback added a task or, for a new configuration, tasks were pending |
| SchedulerShape.ReconfigureShape | ttgwlib/models/task_queue.py:231-237 | a configuration leaves one new wake task, the callback's tasks and the tasks that were pending, in this order |
| SchedulerLocality.HandleHeadLocal | ttgwlib/models/task_queue.py:270-288 | handling the head of one node's queue changes nothing of the other nodes |
| SchedulerProgress.StepOther | ttgwlib/models/task_queue.py:243-288 | a step about another node leaves a node's queue, slot and whitelist entry as they were |
| SchedulerProgress.ConfigurationKeepsPendingWork | ttgwlib/models/task_queue.py:223-238 | starting a configuration keeps the pending tasks in order behind the callback's; one wake task leads, its message is the only one sent |
| SchedulerProgress.ConfiguringLosesWork | ttgwlib/models/task_queue.py:85-104 | without a cancellation a configuring node loses its work exactly when it is mains powered and its head times out with its retries used up |
| SchedulerProgress.ConfiguringGetsWork | ttgwlib/models/task_queue.py:229-241 | a node that joins the configuring nodes has queued work |
| SchedulerProgress.LowPowerNodesKeepWork | ttgwlib/models/task_queue.py:85-104 | in every run without cancellations a configuring low-power node has queued work |
| SchedulerProgress.SuccessDrains | ttgwlib/models/task_queue.py:270-288 | every success lowers the rank of the node's queue, and a node whose queue has gone holds no slot |
| SchedulerProgress.SleepNodeRank | ttgwlib/models/task_queue.py:143-162 | the tasks put up for a node to sleep fit the rank, up to delete, new and sleep |
| SchedulerProgress.QueuesDrain | ttgwlib/models/task_queue.py:270-288 | a queue of n tasks is empty within n+3 successes, in any interleaving with other nodes, and the node has then left both configuration tables |
| SchedulerSleep.DrainedNodesSleepAsPlanned | ttgwlib/models/task_queue.py:270-288 | whatever its queue holds and however other nodes interleave, a drained node is known to sleep with the period of the last configuration task before the one that ended the conversation, or, put to sleep when its queue ran empty, with the wanted one |
| SchedulerSleep.DrainedNodesSleepAsWanted | ttgwlib/models/task_queue.py:143-162 | so a low-power node in whose queue no task ends the conversation ends up asleep with the sleep time the gateway wants, whatever it was known to use |
| SchedulerSleep.NotificationSettles | ttgwlib/models/task_queue.py:214-241 | a notification that finds a low-power node without work queues tasks after which it sleeps with the wanted time, in legacy and in other mode |
| SchedulerSleep.SleepNodeOutcome | ttgwlib/models/task_queue.py:143-162 | the tasks that put a node to sleep end in the wanted time for a low-power node and leave the time of a mains-powered one |
| SchedulerSleep.PlanTasks | ttgwlib/models/task_gw.py:200-211 | a low-power node with no work that is known to use another sleep time gets a change and a sleep task, in legacy mode a new task and a sleep task, behind a delete unless it holds a slot; all behind a wake task when it has no queue |
| SchedulerSleep.SuccessLearns | ttgwlib/models/task_gw.py:259-265 | the success of a configuration task makes its period the known sleep time, and no other success changes it |
| SchedulerWork.TasksLeaveExactly | ttgwlib/models/task_queue.py:75-123 | over every run, a task that waits for a node is still waiting, through reschedules, configurations and restarts, exactly if no step has taken it out: its own success at the head, or a step that clears the queue, which is a cancellation, the end of the conversation, a forbidden or timed out node, a legacy configuration that starts over, or a mains-powered node out of retries; and what does not wait is not queued again |
| SchedulerWork.StepLeaves | ttgwlib/models/task_queue.py:47-325 | in every step the tasks of a node that are not taken out stay in order, behind nothing but the tasks of a configuration that starts, and all others are new |
| SchedulerWork.ExhaustedStep | ttgwlib/models/task_queue.py:85-104 | a timeout with the retries used up leaves a low-power node a new wake task and behind it its whole queue as it was, and any other node no queue |
| SchedulerWork.RepeatStep | ttgwlib/models/task_gw.py:274-280 | a timeout before that counts one more try of the head and leaves the others |
| SchedulerWork.SuccessGoesOn | ttgwlib/models/task_queue.py:270-288 | a success leaves the tasks behind it, the first of them tried once; behind the last one a node that holds a slot or is low power gets exactly the tasks that put it to sleep, by the sleep time it has just learned, and any other is forgotten; the end of the conversation takes queue and slot |
| SchedulerWork.SucceedsExactly | ttgwlib/models/wake_up.py:70-114 | a head succeeds exactly by its own acknowledgement, and one that ends the conversation also by a timeout |
| SchedulerWork.AddStep | ttgwlib/models/task_queue.py:47-73 | an added task goes last, behind a wake task if it is the first, or is tried at once for a mains-powered node without a slot; passive mode adds none |
| SchedulerWork.NotificationStep | ttgwlib/models/task_queue.py:204-241 | the exact queue behind each notification: started over, configured in front of what waited, untouched, or exactly the tasks that put a node without any to sleep |
| SchedulerMessages.StepTells | ttgwlib/models/task_queue.py:243-288 | exactly what is sent in a step: the first task of an awake node; after a success its own news and the message of the next head; at a timeout the head again while it has retries; at a notification the wake, sleep, alive or reset message of the head; the acknowledgement of a reset exactly if the node holds a slot; and nothing else |
| SchedulerHeads.HeadsAreAnnounced | ttgwlib/models/task_queue.py:277-288 | in every run the last message to a node with a head that is no wake task is the message of that head: no acknowledgement is waited for that was not asked for |
| SchedulerSlots.EventSlots | ttgwlib/models/task_queue.py:184-288 | behind an event a node holds a slot exactly if it held one, or asked for one while one was free, and its conversation has not ended; and every event of a slot holder, of legacy firmware too, starts a new timeout and disarms the old one |
| SchedulerSlots.IgnoredEvents | ttgwlib/models/task_queue.py:253-257 | events of nodes that are not whitelisted, and all in passive mode, change nothing |
| SchedulerSleep.StepPeriod | ttgwlib/models/task_queue.py:216-238 | in every step the known sleep time becomes 0 exactly when a configuration starts or starts over, the period of a configuration task when that succeeds, and nothing else changes it |
| SchedulerProgress.DrainingRunExists | ttgwlib/models/task_queue.py:243-288 | from every state with the invariant there is a run of successes that empties the queue |
| SchedulerWhitelist.FinishedNodesStay | ttgwlib/models/task_queue.py:174-182 | after the success that ends its configuration a node is out of both tables and whitelisted; the next dispatch of its timeout drops it exactly if one had expired, and any run that does not configure it again keeps it exactly if the application does not forbid it and no such timeout is dispatched |
| SchedulerWhitelist.FreeNodesStay | ttgwlib/whitelist.py:34-47 | the same for every whitelisted node without a slot |
| SchedulerWhitelist.FreeStep | ttgwlib/models/task_queue.py:164-241 | in one step such a node takes no slot, unless by a reset or a notification that it is not configured, and leaves the whitelist exactly if it is forbidden or its expired timeout is dispatched |
| SchedulerScenarios.NodeLosesItsWork | ttgwlib/models/task_queue.py:85-104 | a run from the start in which a mains-powered node loses its queue while it is being configured |
| SchedulerScenarios.ConfiguredNodeIsDropped | ttgwlib/models/task_queue.py:174-182 | a run from the start in which a timeout that expires just before the sleep acknowledgement drops a configured node |
| SchedulerRetries.RetriesAreBounded | ttgwlib/models/task_gw.py:249-280 | in every run a retrying task is sent at most MAX_RETRIES times and once more for each wake-up of its node since its creation |
| SchedulerRetries.RescheduleAccounted | ttgwlib/models/task_queue.py:85-104 | moving a task behind a new wake task keeps the account of its sends |
| SchedulerRetries.ReconfigureAccounted | ttgwlib/models/task_queue.py:229-237 | queueing tasks again for a configuration keeps the account of their sends |
| SchedulerRetries.OnErrorAccounted | ttgwlib/models/task_gw.py:274-280 | an error of the head, whether its task is sent again or moved behind a new wake task, keeps the account of sends against retries and wake-ups |
| Scheduler.TaskQueue.AddTask | ttgwlib/models/task_queue.py:47-73 | the objects carry out AddTask of the specification: passive mode adds nothing, a wake task goes first for a low-power or configuring node, other nodes execute a first task at once |
| Scheduler.TaskQueue.RescheduleTasks | ttgwlib/models/task_queue.py:85-104 | a low-power node's queue gets a leading wake task unless it has one, any other is cancelled |
| Scheduler.TaskQueue.GetTasks | ttgwlib/models/task_queue.py:106-123 | the objects returned are those of the queue that are neither wake nor sleep tasks, in order |
| Scheduler.TaskQueue.SetSleepTime | ttgwlib/models/task_gw.py:200-211 | the sleep time is set by a change, or in legacy mode by a new task behind a delete unless it is the first time |
| Scheduler.TaskQueue.SleepNode | ttgwlib/models/task_queue.py:143-162 | an alive task for a mains-powered node; for others the sleep task, behind the tasks that set the sleep time when it differs |
| Scheduler.TaskQueue.WakeResetCb | ttgwlib/models/task_queue.py:184-202 | a node gets a free slot with its timeout, and the acknowledgement exactly if it holds one |
| Scheduler.TaskQueue.NotifyCb | ttgwlib/models/task_queue.py:204-241 | the three notifications do to the objects what the specification does to their state |
| Scheduler.TaskQueue.TaskHandler | ttgwlib/models/task_queue.py:243-288 | so does any event, from the filter of passive mode and whitelist to the next head's execution |
| Scheduler.TaskQueue.ConfigTimeoutHandler | ttgwlib/models/task_queue.py:164-182 | so does a configuration timeout |
| Scheduler.TaskQueue.NodeCleanTasks | ttgwlib/models/task_queue.py:307-325 | so does the clean-up of a node |
| Scheduler.TaskQueue.Perform | ttgwlib/models/task_queue.py:13-325 | the objects can carry out every step of a run, and are left standing for a state with the invariant |
| Scheduler.ConfigTimeout.Restart | ttgwlib/events/time_events.py:30-32 | a restart disarms the old timer and arms a new one |
| Protocol.PermitsAreCounted | ttgwlib/tx_manager.py:40-72 | in every interleaving, and whatever tokens the device gives, free permits, the packet without its response and the accepted packets are three together, less one for each time a packet is read as accepted under a token that is still pending |
| Protocol.PermitsAreConserved | ttgwlib/tx_manager.py:40-72 | with a device that tells its packets apart free permits, the packet without its response and the accepted packets are three together; the device never works on more than the permits taken |
| Protocol.PermitsComeBack | ttgwlib/tx_manager.py:50-72 | when the lines are empty, the device has finished and the thread rests, all permits are back and nothing is pending |
| Protocol.CallersGetTheirResponse | ttgwlib/dev_manager.py:158-185 | every caller gets the response to the command it sent, whatever comes in between |
| Protocol.MessagesKeepTheirOrder | ttgwlib/tx_manager.py:74-127 | messages of each priority are handed over in the order they were queued, none lost and none twice |
| Protocol.TokenReuseLosesAPermit | ttgwlib/tx_manager.py:50-61 | the response to a packet gives back its permit or a place among the accepted ones, except when it is accepted under a token that is pending already |
| Protocol.EarlyReuseLosesAPermit | ttgwlib/tx_manager.py:56-72 | a run in which two packets get one token, and which comes to rest with two permits |
| ProtocolProgress.EverythingIsSent | ttgwlib/tx_manager.py:104-118 | from every reachable state, working on comes to an end within a number of steps fixed by the state, whatever the device answers, and not before every queued message has been handed over in order and all permits are back |
| ProtocolProgress.SomebodyCanWork | ttgwlib/tx_manager.py:104-118 | as long as a message, a call, a packet or anything on the lines is left, thread, caller, dispatcher or device can go on: nobody waits for a permit or a response that is not on its way |
| ProtocolProgress.WorkIsBounded | ttgwlib/tx_manager.py:104-118 | in every run the steps of work are bounded by what there was and what is brought in |
| ProtocolProgress.EverythingCanBeSent | ttgwlib/tx_manager.py:104-118 | from every state with the invariant there is such a run to rest |
| Protocol.StepKeepsInv | ttgwlib/tx_manager.py:104-127 | every step of thread, caller, dispatcher and device keeps the invariants of calls, permits, tokens and messages, if the device tells its packets apart |
| TxManager.Manager.RspHandler | ttgwlib/tx_manager.py:50-61 | a response adds its token or gives the permit back |
| TxManager.Manager.SentHandler | ttgwlib/tx_manager.py:63-72 | a completion of a pending packet, and no other, gives a permit back |
| TxManager.Manager.Next | ttgwlib/tx_manager.py:111-118 | the low-priority queue is served only when the other is empty |
| TxManager.DeviceFlags.DevEventHandler | ttgwlib/dev_manager.py:158-166 | a response of the awaited opcode, and no other event, completes the command |
| Handles.HandleManager.GetDevkeyHandle | ttgwlib/dev_manager.py:42-73 | list, dictionary and the device's table agree position by position; the new entry goes last, the entry of the same address gives way, or else the first of ten, and the others keep their order; the handle has the node's key, and its address exactly if no entry for the key has another |
| Handles.HandleManager.GetAddressHandle | ttgwlib/dev_manager.py:75-94 | the handle is bound to the address; the oldest of thirty gives way |
| Handles.HandleManager.SendNode | ttgwlib/tx_manager.py:129-144 | a packet goes to the node's address under the node's key |
| Handles.HandleManager.SendAddr | ttgwlib/tx_manager.py:146-160 | a packet to an address goes to it, and the key table stays as it is |
| Handles.HandleManager.SendAll | ttgwlib/tx_manager.py:129-160 | in any run over addresses, and nodes that share no key, every packet goes where it should, to a node under its own key bound to its own address, as if the device were asked every time |
| Handles.HandleManager.SendEach | ttgwlib/dev_manager.py:42-94 | after sends to any nodes of different keys and addresses the caches hold the last ten keys and the last thirty addresses, in order |
| Handles.NewKey | ttgwlib/dev_manager.py:54-58 | a new key for an address takes the place of the old one, and the entry in between stays |
| Handles.SharedKey | ttgwlib/dev_manager.py:52-53 | the packet to the second of two nodes with one key leaves under a key bound to another address |
| Framing.SerializedIsFrame | ttgwlib/commands.py:9-16 | a command that serializes is a frame that carries its opcode and data behind its length |
| Framing.FramesPrefix | ttgwlib/events/event_parser.py:147-159 | frames at the front of a stream are cut out as they were put together |
| Bytes.FromLe32Bytes | ttgwlib/commands.py:487-497 | numbers of four bytes are read with the lowest byte first |
| Framing.AcceptedExactly | ttgwlib/events/event_parser.py:136-162 | reception ends exactly at the first packet that raises an error behind those before it |
| Framing.RxProcess | ttgwlib/events/event_parser.py:128-162 | wherever reads come back empty, reception gives the start frame and the frames behind it, up to the first that raises an error behind those before it |
| Framing.PacketsArrive | ttgwlib/events/event_parser.py:136-159 | behind any garbage without the start pattern, exactly the serialized packets arrive, in order |
| HexText.CaseOfBytes | ttgwlib/ota_helper.py:45 | hexadecimal bytes are read the same in upper and in lower case |
| HexText.ReadsWhatIsPrinted | ttgwlib/ota_helper.py:83-96 | the columns the loader reads give back every printed record |
| OtaImage.HexLoad | ttgwlib/ota_helper.py:76-108 | the loops give the bytes of the data records up to the first gap, without the trailing 0xFF bytes, or an error exactly if a line up to there is malformed |
| OtaImage.LinkedFlash | ttgwlib/ota_helper.py:90-101 | the chunks that are read lie side by side, so that a later one hides none |
| OtaMeaning.LoadedMeaning | ttgwlib/ota_helper.py:76-108 | the image is one interval, reads at every address what the records up to the first gap read, and ends in a byte other than 0xFF exactly if there is one; a blank one keeps at most address 0 |
| OtaMeaning.LoadFails | ttgwlib/ota_helper.py:76-101 | loading fails exactly if a record cannot be read and no data record up to it leaves a gap |
| OtaFormat.AddressingAgrees | ttgwlib/ota_helper.py:84-98 | the loader's addresses are those of the format exactly when the record stays inside its segment or the 4 GB |
| OtaFormat.LoadsExactlyWhen | ttgwlib/ota_helper.py:76-108 | any file of well-formed records that writes no address twice, in whatever order, with gaps and with records that wrap, is loaded as the flash contents the format gives it exactly if every byte that is not read, or not read to where the format puts it, is 0xFF, and so is all that is read beyond the end of the file |
| OtaFormat.ImageLoadsExactlyWhen | ttgwlib/ota_helper.py:76-108 | a file that writes an image upwards, in any records and both address modes, is loaded as that image without its trailing 0xFF bytes exactly if the data behind the first gap, and the data behind the end-of-file record that follow on, are all 0xFF, and neither decides about the byte at address 0 of a blank image |
| OtaFormat.PrintThenLoad | ttgwlib/ota_helper.py:76-108 | so every such file is, in which all data records have data and nothing follows the end-of-file record |
| OtaFormat.LoadsIntact | ttgwlib/ota_helper.py:83-106 | the text of any file at all loads as its data up to the first gap, from its first byte on, without the trailing 0xFF bytes |
| OtaFormat.EveryImageLoads | ttgwlib/ota_helper.py:76-108 | every image below 4 GB that does not end in 0xFF has such a file, for any record size, and is loaded from it as it was |
| OtaFormat.EmptyRecordLosesData | ttgwlib/ota_helper.py:93-94 | a file in which a record without data between two data records loses the second |
| OtaFormat.DataBehindTheEndLoads | ttgwlib/ota_helper.py:83-101 | a file in which data behind the end-of-file record are loaded |
| OtaUpdate.Merge | ttgwlib/ota_helper.py:128-133 | the application over the soft device, 0xFF exactly above the one and below the other; an error exactly if one is empty |
| OtaUpdate.MergeSpans | ttgwlib/ota_helper.py:130-132 | the merged image is one interval exactly when the soft device starts at or below the end of the application |
| OtaUpdate.LoadOta | ttgwlib/ota_helper.py:127-142 | loading fails exactly if a file is malformed or an image is empty, and otherwise gives the image or the merge |
| OtaFormat.WrappingRecordLoadsOn | ttgwlib/ota_helper.py:84-98 | a file whose record wraps at the end of its segment and is loaded straight on |
| OtaUpdate.CopyBlocks | ttgwlib/ota_helper.py:55-64 | the frames write exactly the bytes that are reached, of every image, and nothing else; it stops exactly when an address does not fit four bytes |
| OtaUpdate.CopyUpdate | ttgwlib/ota_helper.py:44-66 | an update gets through exactly if signature and addresses fit; it then disables the mesh, sends the start packet and the data, block by block upwards, and enables the mesh. Otherwise it has sent nothing, exactly if the image is empty or the signature malformed, or it has disabled the mesh, not enabled it, and written at most part of the image; it has done no more than disable the mesh exactly if the start packet does not fit. A device that reads the control frames byte by byte knows start, size and signature behind an update that got through, and runs again; behind any other its mesh and stack are off |
| OtaUpdate.SwitchBytes | ttgwlib/ota_helper.py:24-35 | the frames that disable and enable the mesh, byte by byte and in order |
| OtaUpdate.HearsUpdate | ttgwlib/commands.py:476-497 | such a device, behind the frames of an update: start address, size and signature as announced, whatever the data |
| OtaUpdate.UpdateWithLongSignature | ttgwlib/ota_helper.py:44-54 | an update with a signature of 246 bytes that disables the mesh and sends nothing else |
| OtaUpdate.WholeImageSent | ttgwlib/ota_helper.py:55-64 | an image of one interval is written whole, also when its size is a multiple of 128 |
| OtaUpdate.Update | ttgwlib/ota_helper.py:113-165 | loading, merging and copying: it gets through exactly if the files load and everything fits, and the device then knows start, size and signature, and writes exactly the loaded image from the serial line, if the soft device reaches the application; in any case no more than part of it |
| OtaUpdate.UpdateReachesFlash | ttgwlib/ota_helper.py:55-64 | the blocks that are sent of a loaded image, read back from the serial line, are all of it |
| TransportSpec.Reassembly | ttgwlib/models/transport.py:48-62 | among any other traffic, the end of a stream delivers the payload exactly when every fragment has arrived, in whatever order and however often, and otherwise finds it incomplete |
| TransportSpec.SourcesAreIndependent | ttgwlib/models/transport.py:48-62 | in any interleaving each source sees the packet and the outcomes of its own events |
| TransportSpec.SendAndReceive | ttgwlib/models/transport.py:32-46 | once the messages of a payload have come in, among any other traffic, the last delivers it |
| TransportSpec.HavingMore | ttgwlib/models/transport.py:105-113 | a fragment that arrives again changes nothing, a new one fills its slot |
| TransportSpec.FragmentOutcome | ttgwlib/models/transport.py:53-56 | among any other traffic a fragment fails without a start, and otherwise exactly if its number is none of the slots, in different ways up to the length and beyond it |
| TransportSpec.LostStart | ttgwlib/models/transport.py:48-69 | among any other traffic, the end of a stream whose start is lost fails if its source has no packet from before, and otherwise delivers that packet exactly if each of its slots has data or gets some from a fragment of the stream, slot by slot the old data first |
| TransportSpec.MixedPayload | ttgwlib/models/transport.py:48-69 | a run that delivers the front of one payload and the back of the next |
| ReceivePath.OrderDecides | ttgwlib/events/event_parser.py:220-239 | behind the replay cache, with losses, repeats and any other traffic, the payload of a stream whose start comes first comes out exactly if each of its messages comes in before every later one; if another of its messages comes first, the end fails without a packet from before, and otherwise delivers that packet, filled with the fragments that come in time, exactly if it is complete |
| ReceivePath.OvertakenFragment | ttgwlib/events/event_parser.py:220-223 | a payload of two fragments that is incomplete because the second comes in first |
| ReceivePath.EndLost | ttgwlib/models/transport.py:58-69 | a source of which no end comes in delivers nothing |
| ReceivePath.ThroughIs | ttgwlib/events/event_parser.py:220-223 | of a stream with rising numbers the cache lets through exactly the messages that come before every later one |
| TransportSpec.ShortOpcodes | ttgwlib/events/event_parser.py:250-258 | an opcode of one or of two bytes and the rest as its data |
| TransportSpec.VendorOpcode | ttgwlib/events/event_parser.py:241-262 | a vendor message has the opcode of its three bytes, and the rest is its data |
| TransportSpec.DataMessage | ttgwlib/models/transport.py:88-97 | a data message is read as the fragment it carries |
| Transport.SendMsg | ttgwlib/models/transport.py:32-46 | up to seven bytes go in one message that is read as they are, longer payloads in a start, all fragments in order and an end, and nothing is sent of a payload beyond 65535 bytes |
| Transport.FragmentedPkt.AddData | ttgwlib/models/transport.py:105-113 | a number beyond the length and one beyond the slots fail differently, the first data of a slot stay |
| Transport.FragmentedPkt.GetData | ttgwlib/models/transport.py:124-133 | the slots one after the other exactly if none is empty |
| Transport.TransportModel.DataHandler | ttgwlib/models/transport.py:48-71 | an event does to the packet of its source what the specification says and nothing to the others |
| ReplayProtection.ReplayCache.CheckSeqNumber | ttgwlib/events/replay_cache.py:15-25 | a message is accepted exactly if its number is above all received from its source since that was last removed |
| ReplayProtection.ReplayCache.RemoveNode | ttgwlib/events/replay_cache.py:11-13 | a removal forgets one source |
| ReplayProtection.SequenceFile.ConfigDevice | ttgwlib/dev_manager.py:252-262 | a restart goes on at the next multiple of 100 above the record, and records it |
| ReplayProtection.NumbersRise | ttgwlib/dev_manager.py:150-152 | across any number of restarts that find a record, each number used is above all before it |
| ReplayProtection.RestartGoesOnAbove | ttgwlib/dev_manager.py:252-262 | the first number behind a restart is above all used exactly if a record was found or none was used |
| ReplayProtection.LostRecordRepeats | ttgwlib/dev_manager.py:257-258 | a run in which the file is lost between two restarts and the number 0 is used twice |
| ReplayProtection.PeerAcceptsNewer | ttgwlib/events/replay_cache.py:15-25 | across restarts a peer accepts the k-th message of a gateway exactly when it is newer than all that have arrived |
| ProvisioningSpec.AddressesStayDistinct | ttgwlib/provisioning/provisioner.py:59-105 | over every run stored nodes have pairwise different unicast addresses from 21 to 21+0x7000 |
| ProvisioningSpec.FirstFreeIsLowest | ttgwlib/provisioning/provisioner.py:19-26 | the address is the lowest free one, and none is found exactly when all are used |
| ProvisioningSpec.AddressIsFound | ttgwlib/provisioning/provisioner.py:19-26 | with fewer than 0x7000 stored nodes an address is found |
| ProvisioningSpec.OneNodeAtATime | ttgwlib/provisioning/prov_manager.py:62-69 | until its link is closed the node handed to the device is the only one provisioned and the only one that can be stored |
| ProvisioningSpec.ScanFollowsManager | ttgwlib/provisioning/prov_manager.py:38-77 | over every run the device scans only while the manager does, and then whenever no node is being provisioned |
| ProvisioningSpec.FirstMessageAccepted | ttgwlib/provisioning/provisioner.py:101-105 | in every run in which nothing has come from its address since the hand-over, the replay cache accepts the first message of the node, whatever its number |
| ProvisioningScan.OneScanOneNode | ttgwlib/provisioning/prov_manager.py:38-77 | after a scan for one node is started, at most one node is stored that was not there before, in every run until the next scan is started |
| ProvisioningScan.ScanEndsWithNode | ttgwlib/provisioning/prov_manager.py:71-77 | when the link is closed the device scans again exactly if the manager was scanning and not for one node; otherwise nothing is sent, provisioned or stored any more until a scan is started |
| ProvisioningScan.StepSends | ttgwlib/provisioning/provisioner.py:70-105 | exactly the commands of every step, in order: a hand-over stops the scan, clears the lowest free address, sets the keys and provisions |
| ProvisioningScan.StepScans | ttgwlib/provisioning/prov_manager.py:38-60 | exactly when the manager scans, with which filter, for how many and with which timeout |
| ProvisioningScan.StepStores | ttgwlib/provisioning/prov_manager.py:20-31 | exactly which nodes are stored: an announcement while scanning removes the node, wanted or not, and a completion stores the one handed over |
| ProvisioningScan.StepHands | ttgwlib/provisioning/provisioner.py:59-105 | exactly which node is handed over, and that a closed link ends it |
| ProvisioningScan.ScanByAddress | ttgwlib/provisioning/prov_manager.py:20-31 | a run with a filter of hardware addresses that passes over another node |
| ProvisioningSpec.GetsStuck | ttgwlib/provisioning/provisioner.py:94-99 | a step leaves the manager waiting for nothing exactly when a wanted node is announced and the others hold all addresses |
| ProvisioningSpec.FullMeshGetsStuck | ttgwlib/provisioning/provisioner.py:94-105 | from the initial state, 0x7000 nodes of any different hardware addresses are provisioned and stored one after the other, and the announcement of one more gets the manager stuck |
| ProvisioningSpec.StuckRun | ttgwlib/provisioning/provisioner.py:94-105 | such a run with its hardware addresses |
| ProvisioningSpec.StuckForever | ttgwlib/provisioning/prov_manager.py:62-69 | from then on no node is provisioned or stored in any continuation |
| Provisioning.ProvManager.ObtainUnicastAddr | ttgwlib/provisioning/provisioner.py:19-26 | the loop finds the lowest address no stored node has, or none if all are used, and has the device forget it |
| Provisioning.ProvManager.Provision | ttgwlib/provisioning/prov_manager.py:62-69 | a node is handed over unless one is being provisioned |
| Provisioning.ProvManager.UnprovHandler | ttgwlib/provisioning/prov_manager.py:20-31 | an announcement removes a stored node and starts its provisioning if the filter wants it |
| Provisioning.ProvManager.Dispatch | ttgwlib/provisioning/provisioner.py:70-92 | an event reaches the registered handlers and keeps the addresses distinct |

## Left out

- Serial, socket, TLS and passthrough code, the programmers of the boards, downloads, archives and JSON: input and output without a property of their own.
- The cryptography of provisioning: calls into libraries; the keys sent are not modelled.
- Real time, sleeps, busy waits and thread joins: steps that may come at any time stand for them.
- Data races of Python threads, such as the clean-up of a node outside the queue's lock: locked regions and dispatched events are atomic.
- Changes of the handler list while it is being walked (`ttgwlib/events/event_handler.py:89-90`): each part fixes the order of the handlers it needs.
- The field decoding of events and the models of light, tap, power, RSSI, hardware monitor, beacon and output: one retrying task stands for their tasks.
- The list of configured tasks, logging, versions, board names and the facade of the gateway: easy members only.
- The checksum of fragments, which the source accepts always.
- The transport event built from a delivered payload (`ttgwlib/models/transport.py:63-69`): its dictionary lacks the sequence number that `ttgwlib/events/model_events.py:653` reads, so the model stops at source and payload.
- A device reset in the middle of a session, which does not clear the caches of the handles, and stopping the transmission thread, which sends a last packet without a permit (`ttgwlib/tx_manager.py:120-127`).
- OtaHelper's send, status and install commands: single packets.
- SchedulerProgress.QueuesDrain: leaves out tasks whose success queues another one (over-the-air updates); they have their extra weight in the rank of SchedulerProgress.SuccessDrains and SchedulerProgress.DrainingRunExists.
- OtaFormat.LoadsExactlyWhen: leaves out files that write an address twice, of which the format does not say which byte stays.
- HexText.ReadsWhatIsPrinted: the looser forms Python's number readers accept, such as signs, underscores and spaces, are malformed in the model, in files as in signatures.
- Scheduler.TaskQueue.SleepNode: the sleep task is constructed after the tasks that set the sleep time; only the numbering of task objects differs from the source.
- ReplayProtection.SequenceFile.ConfigDevice: a file with a negative number, or one too large for its field, is not modelled.
- Provisioning.ProvManager.UnprovHandler: the prefixes of the filter are taken in lower case already, and the identifier of a node as its digits.
