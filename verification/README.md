# Verified models of the audio, event-loop and analysis cores

This project models the parts of the compatibility runtime whose correctness spans several functions
or several threads, and proves what they are for.

- **Audio buffer ownership.** The FMOD output runtime (a device registry, a slot pool per device,
  blocking writers, a two-level shutdown) and the OpenSL buffer queue (a ticket pool, generations, a
  callback thread, a joinable shutdown). Both are step systems: every region under a mutex, every call
  into a sink and every notification of a condition that a writer, the shutdown or the callback thread
  waits for is one step, and threads interleave at every step. A sink
  releases each accepted buffer exactly once, never a refused one, and all of them before its Shutdown
  returns. The regions are also written in place, as classes, and proved equal to the steps. The
  bookkeeping of the OpenSL queue is proved for a sink that breaks this contract, too.
- **The ALooper.** Two tables and a kernel poll set from which entries may vanish; adds that roll back;
  64-bit tokens that wrap around; a queue of pending idents.
- **Decoders and searches of the ABI deriver.** SLEB128, the APS2 relocation stream, the cover of
  `.init_array`, and the anchor-driven signature search.
- **Microphone capture.** The drop-oldest ring, the moved shared references, and the switch of every
  live capture to another device.
- **Constructor bisection and vtable patching.**

One module per component; `dafny verify dfyconfig.toml` covers all of them. Modules named `...Runs`
hold the statements about whole executions; `FmodWrites`, `FmodCalls`, `OpenSlEnqueues`, `OpenSlJobs` and
`LooperPolls` say what the calls achieve, not only what they keep safe.

Five promises turned out to have exceptions, each stated with its exact condition:

- An FMOD Init whose device state cannot be allocated destroys its good sink without calling the sink's
  Shutdown. The SDL sink of the default factory shuts itself down when it is destroyed
  (src/audio/sdl_audio_sink.cc:148), so nothing is lost with it; the sink interface does not ask for that
  (include/mocktail/audio/audio_sink.h:45). Every sink is shut down by a completed shutdown if and only if
  the factory's sinks do so or no such allocation ever failed
  (`FmodRuntimeRuns.SinksShutIffNoNullAllocation`, `FmodRuntimeRuns.NullAllocationLosesASink`).
- With a sink that breaks its contract, the OpenSL books balance if and only if no shutdown ended with
  buffers still pending (`OpenSlQueue.BooksBalanceUntilForced`). A sink that keeps it never triggers that
  forced reclaim, so there they always balance (`OpenSlRuns.ShutdownAndClearAreFinal`).
- After an OpenSL Clear has returned, and until the next one, the release of an older buffer can pass for
  that of a newer one if and only if that Clear left a buffer with the sink and no shutdown has begun
  (`OpenSlStale.ClearIsFinalIff`; `OpenSlRuns.FailedClearMixesUpBuffers` is one such execution).
- An OpenSL shutdown whose join fails records the failure and completes all the same. After a completed
  shutdown a guest callback can still start if and only if the callback thread holds a job it has not
  begun, and it holds one only after such a failure (`OpenSlCallbacks.LateCallbackIff`;
  `OpenSlCallbacks.FailedJoinCallsLate` is one such execution).
- The prefix scan of the bisection ends if and only if it has nothing to scan or no bad constructor that
  still runs lies below the position it starts from (`Bisection.ScanEndsIff`).

## Model

| member | source | states |
|---|---|---|
| `FmodPool.DeviceState.FindFree` | src/audio/fmod_java_audio_runtime.cc:76-83 | the scan stops at the first Free slot, or at the end when there is none |
| `FmodPool.DeviceState.PassGate` | src/audio/fmod_java_audio_runtime.cc:511-528 | blocked, denied, exhausted or granted exactly as the pool's state demands; a grant reserves the slot and the pending counts stay exact |
| `FmodPool.DeviceState.PublishSlot` | src/audio/fmod_java_audio_runtime.cc:532-545 | a closing device frees the slot again; otherwise it becomes Pending; either way the stored counts stay the real ones, and the Pending total grows by exactly this buffer or not at all |
| `FmodPool.DeviceState.WithdrawSlot` | src/audio/fmod_java_audio_runtime.cc:553-563 | a slot still Pending is freed, with the wrap-around of unsigned subtraction; given its own size, the stored counts stay the real ones and the Pending total shrinks by exactly this buffer |
| `FmodPool.DeviceState.ReleaseOwnedBuffer` | src/audio/fmod_java_audio_runtime.cc:152-172 | a release of a Pending slot frees it, says whether it counts as discarded, and keeps the counts exact; any other release changes nothing |
| `FmodPool.GateHasFreeSlot` | src/audio/fmod_java_audio_runtime.cc:511-525 | with exact counts and no slot Reserved, an open gate always has a Free slot behind it |
| `FmodPool.FreeingIsExact` | src/audio/fmod_java_audio_runtime.cc:160-171 | freeing a Pending slot subtracts exactly its buffer and bytes: nothing is clipped or wrapped, and release and rollback agree |
| `FmodPool.WithdrawUndoesPublish` | src/audio/fmod_java_audio_runtime.cc:520-563 | a refused buffer leaves slots and counts as if it had never been written |
| `FmodDeviceRuns.StepKeepsInv` | src/audio/fmod_java_audio_runtime.cc:142-235 | every step of every thread and of the sink keeps slot ownership, exact counts, sink phases, pending wake-ups and balanced counters |
| `FmodDeviceRuns.PoolIsExact` | src/audio/fmod_java_audio_runtime.cc:489-578 | in every execution the pending counts are the number and total size of Pending slots, at most one slot is Reserved, no branch for broken accounting is taken, no buffer reaches a sink after its Shutdown, and a close reports no unreleased buffer |
| `FmodDeviceRuns.QuietDeviceBalances` | src/audio/fmod_java_audio_runtime.cc:173-189 | with no call or release in flight, submitted = consumed + discarded + pending, in buffers and in bytes |
| `FmodProgress.NeverStuck` | src/audio/fmod_java_audio_runtime.cc:201-235 | a busy device always has a thread that can move or a sink buffer that can come back, without counting on spurious wake-ups |
| `FmodProgress.SleeperWaitsForSink` | src/audio/fmod_java_audio_runtime.cc:508-514 | a writer asleep with no notification on its way is asleep because the open device's sink holds every slot |
| `FmodProgress.ClosingFreesTheWriter` | src/audio/fmod_java_audio_runtime.cc:207-216 | a writer blocked when `closing` is set has a notification on its way, every notifier wakes it, and it then returns without touching the pool |
| `FmodProgress.StepLowersRank` | src/audio/fmod_java_audio_runtime.cc:201-235 | every step of a call under way lowers a rank, so threads inside a device cannot go round for ever; a writer woken for no reason is the one exception, and none once `closing` is set |
| `FmodProgress.CloseAlwaysFinishes` | src/audio/fmod_java_audio_runtime.cc:201-235 | a closing device's schedules without new calls are bounded beforehand, and where none can go on every writer and closer has returned |
| `FmodFates.CopiesFitTheirSlots` | src/audio/fmod_java_audio_runtime.cc:497-530 | in every execution each slot in use, and each copy under way, holds whole frames and at most one block |
| `FmodFates.ReleaseDecidesFate` | src/audio/fmod_java_audio_runtime.cc:160-189 | a returned buffer will count once, with its size, as discarded if the device is closing and as consumed if not; no other step changes either sum |
| `FmodFates.ClosingEndsConsumption` | src/audio/fmod_java_audio_runtime.cc:207-210 | nothing that comes back after a close has begun is ever consumed |
| `FmodFates.OpenDeviceDiscardsNothing` | src/audio/fmod_java_audio_runtime.cc:160 | nothing is discarded before |
| `FmodWrites.AdmissionIsExact` | src/audio/fmod_java_audio_runtime.cc:492-528 | a write that has the device is turned away at once exactly when the device is shut, the bytes are not whole frames or exceed a block; otherwise it gets the first Free slot, or sleeps exactly when there is none |
| `FmodWrites.AcceptedWrite` | src/audio/fmod_java_audio_runtime.cc:489-578 | undisturbed, with a Free slot and a sink that accepts, a write answers true; the first Free slot is filled and lent, pending and submitted grow by exactly this buffer, and nothing else changes |
| `FmodWrites.RefusedWrite` | src/audio/fmod_java_audio_runtime.cc:549-571 | the same write with a sink that refuses answers false and leaves counts, counters and slots as if it had never been made |
| `FmodWrites.WriteAnswersTheTruth` | src/audio/fmod_java_audio_runtime.cc:489-578 | in every execution submitted grows by exactly this buffer if the write answers true and not at all otherwise, and it answers false only for a wrong size, a closing device or a refusing sink |
| `FmodRegistry.State.ReserveIdentity` | src/audio/fmod_java_audio_runtime.cc:348-367 | the condition for each answer, reserved if and only if no shutdown has begun, the identity is new and there is room; and the new set, with the registry invariant kept |
| `FmodRegistry.State.PublishDevice` | src/audio/fmod_java_audio_runtime.cc:413-431 | a reserved identity is published, or turned away by a shutdown, and by nothing else |
| `FmodRegistry.State.TakeDevice` | src/audio/fmod_java_audio_runtime.cc:608-620 | Close gets the device under its identity and removes it, or finds none |
| `FmodRegistry.State.BeginShutdown` | src/audio/fmod_java_audio_runtime.cc:664-673 | the first shutdown takes every device away, later ones none |
| `FmodRegistry.ReservedIsPublishable` | src/audio/fmod_java_audio_runtime.cc:416-430 | the duplicate and limit branches of the publication cannot be reached |
| `FmodRuntimeSteps.AdvanceKeepsInv` | src/audio/fmod_java_audio_runtime.cc:267-441 | every step of Init, Write, Close, Shutdown, the devices and the sinks keeps the runtime invariant: reservations, phases, responsibility for each device, threads inside devices, and sinks |
| `FmodRuntimeRuns.RunsAreSafe` | src/audio/fmod_java_audio_runtime.cc:348-431 | in every execution no identity is both published and initializing, the device limit holds, a reserved Init fails to publish only for a shutdown, every device's counts are exact, and no sink is given a buffer after its Shutdown |
| `FmodRuntimeRuns.CompletionIsFinal` | src/audio/fmod_java_audio_runtime.cc:655-693 | when the shutdown is complete no call is past its gate, nothing is published or initializing, every device is shut down, empty of threads and of buffers, and every sink was shut down or dropped |
| `FmodRuntimeRuns.SinksShutIffNoNullAllocation` | src/audio/fmod_java_audio_runtime.cc:401-411 | every sink was shut down at completion if and only if the sinks shut themselves down when destroyed or no device state allocation failed |
| `FmodRuntimeRuns.NullAllocationLosesASink` | src/audio/fmod_java_audio_runtime.cc:401-411 | an execution, with sinks that do not shut themselves down, in which one is dropped without Shutdown |
| `FmodRuntimeRuns.RuntimeConserves` | src/audio/fmod_java_audio_runtime.cc:489-578 | whenever every device is quiet the runtime totals balance, and the pending total is what the slots of all devices say |
| `FmodRuntimeRuns.RuntimeNeverSticks` | src/audio/fmod_java_audio_runtime.cc:655-693 | while a device is busy, a call is past its gate or about to notify, or a shutdown is incomplete, some thread or sink can move; a shutdown that sleeps although all calls are out has a notification on its way |
| `FmodTermination.AdvanceLowersRank` | src/audio/fmod_java_audio_runtime.cc:655-693 | every step of the calls, devices and shutdown under way lowers one rank of the whole runtime |
| `FmodTermination.ShutdownAlwaysCompletes` | src/audio/fmod_java_audio_runtime.cc:655-693 | from every reachable state the schedules without new calls are bounded beforehand, and where none can go on all calls have returned and notified, and a shutdown that had begun is complete |
| `FmodCalls.ArgumentsAreExact` | src/audio/fmod_java_audio_runtime.cc:293-346 | the checks of Init accept exactly the valid formats whose queue fits the limits in true, unbounded arithmetic: the guards against overflow turn away nothing else |
| `FmodCalls.ReservationIsExact` | src/audio/fmod_java_audio_runtime.cc:348-367 | Init goes on with its identity reserved exactly when its arguments are valid, no shutdown has begun, the identity is new and there is room, and leaves at once otherwise |
| `FmodCalls.InitRegistersDevice` | src/audio/fmod_java_audio_runtime.cc:269-441 | an admitted Init in which nothing fails registers exactly one device under its identity, with the frame size, block size and block count it asked for and the sink it was given, and leaves nothing else behind |
| `FmodCalls.WriteLookupIsExact` | src/audio/fmod_java_audio_runtime.cc:467-487 | a write arrives at the device registered under its identity exactly when it carries data and names one, and leaves at once otherwise |
| `FmodCalls.WriteIsSubmitted` | src/audio/fmod_java_audio_runtime.cc:443-578 | from its gate to its return, a write to an open, idle device with a Free slot and an accepting sink leaves behind exactly its buffer, lent and counted once |
| `FmodCalls.CloseLookupIsExact` | src/audio/fmod_java_audio_runtime.cc:608-620 | a close takes away exactly the device registered under its identity, or leaves at once |
| `FmodCalls.CloseStartIsExact` | src/audio/fmod_java_audio_runtime.cc:201-210 | a close that has a device marks exactly that one closing |
| `FmodCalls.ClosedMeansShut` | src/audio/fmod_java_audio_runtime.cc:201-235 | when a close returns, its device's sink has been shut down and dropped and every buffer is back |
| `OpenSlQueue.State.AdmitBuffer` | src/audio/opensl_simple_buffer_queue.cc:105-131 | refused when stopping or full; otherwise the last free ticket gets the next number and the current generation, in place |
| `OpenSlQueue.State.RollBackBuffer` | src/audio/opensl_simple_buffer_queue.cc:133-157 | after a refused Enqueue the ticket goes back and the submission is uncounted, unless it was released meanwhile |
| `OpenSlQueue.State.ClearAll` | src/audio/opensl_simple_buffer_queue.cc:159-194 | every ticket is taken back, counted discarded, and the free list rebuilt highest first |
| `OpenSlQueue.State.ReleaseBuffer` | src/audio/opensl_simple_buffer_queue.cc:227-275 | a release counts as consumed, with its bytes, in its own generation and discarded otherwise; a consumed one queues the registered callback, last; a second release changes nothing |
| `OpenSlQueue.State.RegisterCallback` | src/audio/opensl_simple_buffer_queue.cc:211-225 | replaces the callback unless the queue is stopping |
| `OpenSlQueue.State.TakeJob` | src/audio/opensl_simple_buffer_queue.cc:287-296 | a callback thread whose wait is over leaves a stopping queue empty, or takes the oldest job and no other |
| `OpenSlQueue.State.Finish` | src/audio/opensl_simple_buffer_queue.cc:563-577 | the forced reclaim of tickets still out |
| `OpenSlQueue.FreeListSize` | src/audio/opensl_simple_buffer_queue.cc:105-117 | an exact free list and the tickets in use add up to the pool |
| `OpenSlQueue.AdmitKeeps` | src/audio/opensl_simple_buffer_queue.cc:105-131 | admission is refused as stopped exactly when stopping and as full exactly when every ticket is in use; the ticket it hands out was free and gets the next number and the current generation |
| `OpenSlQueue.RollBackUndoesAdmit` | src/audio/opensl_simple_buffer_queue.cc:133-157 | rolling back right after an admission restores the queue, except for the number it used up |
| `OpenSlQueue.ClearKeeps` | src/audio/opensl_simple_buffer_queue.cc:159-194 | a Clear discards exactly what is pending, begins a new generation, leaves no ticket in use and keeps the books exact |
| `OpenSlQueue.BooksBalanceUntilForced` | src/audio/opensl_simple_buffer_queue.cc:240-266 | for any order of regions and any sink, the free list lists exactly the idle tickets once and submitted = consumed + discarded + pending, if and only if no shutdown of the run ended while buffers were pending |
| `OpenSlQueue.RegionDecidesFate` | src/audio/opensl_simple_buffer_queue.cc:242-264 | a release counts as consumed until a shutdown begins and as discarded from then on, a Clear discards exactly what is pending, and nothing else counts |
| `OpenSlQueue.UninterruptedQueueDiscardsNothing` | src/audio/opensl_simple_buffer_queue.cc:251-264 | without a Clear or a shutdown every submitted buffer is consumed or pending, however the sink behaves |
| `OpenSlRuns.StepKeepsSafe` | src/audio/opensl_simple_buffer_queue.cc:227-301 | every step of guests, sink, callback thread and shutdown keeps the phases, the books, the cover of every ticket in use and a notification on its way to a callback thread that sleeps with work to do, and ownership unless a Clear has left buffers out |
| `OpenSlRuns.ShutdownAndClearAreFinal` | src/audio/opensl_simple_buffer_queue.cc:532-578 | no sink call after the sink's Shutdown; no guest callback starts after completion, also when the callback thread asked for it, unless its join failed; the books always balance, no ticket is reclaimed by force, and completion leaves nothing pending or borrowed; and unless a Clear left buffers out, nothing old is counted consumed |
| `OpenSlRuns.FailedClearMixesUpBuffers` | src/audio/opensl_simple_buffer_queue.cc:188-194 | an execution in which the release of a cleared buffer is counted consumed for its successor |
| `OpenSlEnqueues.AcceptedEnqueue` | src/audio/opensl_simple_buffer_queue.cc:98-140 | undisturbed, with a ticket to spare and a sink that accepts, the buffer is lent under the next number and the current generation on a ticket that was free, counted once, and nothing else changes |
| `OpenSlEnqueues.RefusedEnqueue` | src/audio/opensl_simple_buffer_queue.cc:133-157 | with a sink that refuses, the queue is as it was except for the number used up |
| `OpenSlJobs.EveryConsumedBufferIsAnswered` | src/audio/opensl_simple_buffer_queue.cc:251-299 | in every execution the guest callbacks made, the one in hand and the queued ones are exactly, in order, the callbacks registered at each consumed release; after a shutdown has begun, those made or in hand are the front part of that sequence |
| `OpenSlJobs.OneCallForEachBuffer` | src/audio/opensl_simple_buffer_queue.cc:251-299 | with a callback registered first and never null, calls made, in hand and queued are as many as the buffers consumed |
| `OpenSlJobs.ShutdownForgetsJobs` | src/audio/opensl_simple_buffer_queue.cc:547-555 | from the moment a shutdown begins no job is queued and no callback is registered |
| `OpenSlCallbacks.LateCallbackIff` | src/audio/opensl_simple_buffer_queue.cc:340-362 | in a completed shutdown a guest callback can still start if and only if the callback thread holds a job, and it does only if the join failed |
| `OpenSlCallbacks.FailedJoinCallsLate` | src/audio/opensl_simple_buffer_queue.cc:340-362 | an execution in which the join fails, the shutdown completes and the guest is called |
| `OpenSlStale.ClearIsFinalIff` | src/audio/opensl_simple_buffer_queue.cc:159-194 | after any Clear has returned, some continuation without another Clear counts an older buffer as consumed if and only if that Clear left one out and no shutdown has begun |
| `OpenSlProgress.ShutdownNeverSticks` | src/audio/opensl_simple_buffer_queue.cc:532-578 | while a shutdown is incomplete, or the callback thread still there, some thread or the sink can move, whoever asked for it, and without counting on spurious wake-ups: the callback thread is awake or about to be notified |
| `OpenSlProgress.JobsAreNotForgotten` | src/audio/opensl_simple_buffer_queue.cc:272-297 | while jobs are queued the callback thread can go on, or a release is about to notify it and will wake it |
| `OpenSlProgress.ShutdownAlwaysCompletes` | src/audio/opensl_simple_buffer_queue.cc:532-578 | every schedule of a shutdown is bounded beforehand, and where nothing can move it is complete, no buffer is out, every notification is made and the callback thread has exited |
| `Looper.ALooper.NextRegistrationToken` | stubs/libandroid_stub.cc:657-669 | ends with the first unused token after the counter, across the 64-bit wrap and never 0, while fewer than 2^64 - 1 are live |
| `Looper.ALooper.AddFd` | stubs/libandroid_stub.cc:781-848 | succeeds exactly for valid arguments and a granted epoll call; then both tables and the kernel name the new registration alone; otherwise all three are as before; and where the token counter stands after either |
| `Looper.ALooper.RemoveFd` | stubs/libandroid_stub.cc:683-705 | exactly one of three answers and when each is given; on success exactly the descriptor and its token leave the tables and the kernel, otherwise nothing changes |
| `Looper.ALooper.RemoveDescriptor` | stubs/libandroid_stub.cc:850-857 | the public call: refused for a negative descriptor, and otherwise the same with any token accepted |
| `Looper.ALooper.TakePendingIdent` | stubs/libandroid_stub.cc:713-729 | hands out the oldest queued ident that is still current and drops exactly the entries before it |
| `Looper.ReplaceMirrors` | stubs/libandroid_stub.cc:792-848 | a fresh registration keeps the two tables inverse to each other |
| `Looper.RemainingPollTimeout` | stubs/libandroid_stub.cc:731-746 | the wait is rounded up to the next millisecond, never early by one, and clipped to an int |
| `LooperRuns.TokensFollow` | stubs/libandroid_stub.cc:657-669 | until the counter wraps the search yields the next number and no other |
| `LooperRuns.CounterFollows` | stubs/libandroid_stub.cc:657-669 | a counter one past the tokens issued stays so after every add, failed ones included |
| `LooperRuns.ApplyKeepsInv` | stubs/libandroid_stub.cc:873-993 | adds, removes, kernel events, batches, nested polls and takes keep tokens unique, every entry genuine, no event twice, and the queue in order |
| `LooperRuns.CurrentEventsAreFound` | stubs/libandroid_stub.cc:942-960 | no event whose registration is still there is skipped when a batch is looked up |
| `LooperRuns.IdentsAreQueued` | stubs/libandroid_stub.cc:975-979 | every ident entry of a batch is queued |
| `LooperRuns.IdentsAreCurrentAndInOrder` | stubs/libandroid_stub.cc:942-984 | with callbacks that may poll again, idents leave the queue front to back, no event twice, each for the registration that produced it, and in kernel order when no callback polled; the oldest entry is handed out if and only if that registration is still current and has no callback |
| `LooperPolls.RemovedIsNeverHandedOut` | stubs/libandroid_stub.cc:683-729 | once a descriptor is removed, by the call or by its callback's answer, no registration of it made before is in the tables again, and no entry of one is handed out, in any continuation |
| `LooperPolls.RemovalIsExact` | stubs/libandroid_stub.cc:962-973 | a removal touches no other descriptor, a callback removes only the registration it was called for, and one that keeps its registration changes nothing |
| `LooperPolls.UndisturbedPoll` | stubs/libandroid_stub.cc:873-984 | a poll that no other thread disturbs hands out exactly the ready descriptors without a callback, in kernel order, each with its registration and events, whatever the callbacks answer |
| `LooperPolls.AddedIsHandedOut` | stubs/libandroid_stub.cc:781-848 | a descriptor added with an ident and then reported ready is handed out with that ident, its data and the reported events |
| `Sleb128.Sleb128Reader.PopValue` | scripts/derive_roblox_host_abi_profile.py:178-194 | the reading loop computes the number and position of the declarative reader |
| `Sleb128.PopInvertsEncode` | scripts/derive_roblox_host_abi_profile.py:178-194 | inside any stream the shortest encoding of v reads back as v and exactly its bytes when -2^62 <= v < 2^64, and is rejected otherwise |
| `Sleb128.PopReadsTheNumber` | scripts/derive_roblox_host_abi_profile.py:178-194 | every well-formed encoding, padded ones included, reads as its number and exactly its bytes, or is rejected exactly when it is over ten bytes, out of range, or negative in ten bytes |
| `Sleb128.PopIsSound` | scripts/derive_roblox_host_abi_profile.py:178-194 | whatever is read was a well-formed encoding of the number returned |
| `Sleb128.EncodeIsShortest` | scripts/derive_roblox_host_abi_profile.py:178-194 | no well-formed encoding of a number is shorter |
| `Sleb128.PopIgnoresTail` | scripts/derive_roblox_host_abi_profile.py:178-194 | a successful read does not depend on what follows it |
| `Aps2.DecodeRelocations` | scripts/derive_roblox_host_abi_profile.py:563-614 | the nested loops compute the recursive decoder, errors included, and terminate although a grouped entry reads no bytes |
| `Aps2.DecodeInvertsEncode` | scripts/derive_roblox_host_abi_profile.py:563-614 | for every announced count, base, list, grouping and choice of flag words, with the meaning of each flag bit written on the number, the stream decodes to exactly the list, or is rejected just when the count is another one or over 4 Mi, a word has more than four bits or a written step is out of range |
| `Aps2.PairLayout` | scripts/derive_roblox_host_abi_profile.py:563-614 | the byte sequence of a group of two, field by field, for each of the sixteen flag words, decodes to the pair |
| `Aps2.KnownStream` | scripts/derive_roblox_host_abi_profile.py:563-614 | thirteen given bytes, a group by info with addends, decode to two given relocations |
| `Aps2.KnownPlainStream` | scripts/derive_roblox_host_abi_profile.py:563-614 | sixteen given bytes, a group that shares nothing, with a base offset of three bytes and steps back, decode to two given relocations |
| `Aps2.EveryListHasAPlan` | scripts/derive_roblox_host_abi_profile.py:563-614 | every list of 64-bit relocations has such a grouping |
| `Aps2.DecodeConsumesEverything` | scripts/derive_roblox_host_abi_profile.py:611-614 | an accepted stream with anything appended is rejected |
| `ElfImage.RequireCodeMeansMapped` | scripts/derive_roblox_host_abi_profile.py:442-456 | the code test accepts an address exactly when one segment alone maps it and that segment is readable, executable, not writable and file-backed there |
| `ElfImage.SelectEntries` | scripts/derive_roblox_host_abi_profile.py:536-556 | the loop selects the addend of each entry, and rejects only tables that are not an exact cover |
| `ElfImage.InitArrayRelocations` | scripts/derive_roblox_host_abi_profile.py:536-560 | returns if and only if the stream decodes and covers each 8-byte entry exactly once with a relative relocation without symbol into code; the result has size/8 entries, each the addend of the one relocation in its window |
| `SignatureScan.LongestFixedAnchor` | scripts/derive_roblox_host_abi_profile.py:1030-1046 | the leftmost longest run of fixed bytes, or a rejection exactly when no run is long enough |
| `SignatureScan.FindBytes` | scripts/derive_roblox_host_abi_profile.py:1157-1159 | the first occurrence inside the bounds, or none |
| `SignatureScan.FindSignature` | scripts/derive_roblox_host_abi_profile.py:1149-1182 | the anchor-driven scan returns, in increasing order and once each, exactly the offsets a masked comparison of all of `.text` would accept |
| `SignatureScan.MatchIsFixedBytes` | scripts/derive_roblox_host_abi_profile.py:1161-1182 | an offset matches exactly when the signature lies in `.text`, the bytes under the mask agree whatever the others hold, and the only segment that maps it is executable and not writable |
| `SignatureScan.WildcardsAreFree` | scripts/derive_roblox_host_abi_profile.py:1169-1172 | changing bytes under the wildcards of a match, or outside it, leaves it a match |
| `CaptureRing.Session.OnData` | src/audio/native_input_capture.h:128-141 | a buffer of 960 bytes is appended to the queue, whose oldest frame goes if there were 20, which is counted; any other size is ignored |
| `CaptureRing.Session.TakeFrame` | src/audio/native_input_capture.h:237-244 | the oldest frame and ten milliseconds of delay for each queued one, or nothing from an empty ring |
| `CaptureRing.Session.Deliver` | src/audio/native_input_capture.h:227-256 | with frames arriving before every dequeue, a pass hands over, leaves and drops exactly what the interleaved steps make of the queue, and ends early only on an empty ring |
| `CaptureRing.RunIsConsistent` | src/audio/native_input_capture.h:128-141 | under every interleaving the queue is the newest accepted frames in order, every older frame was delivered or dropped and not both, in order and once |
| `CaptureRing.DequeueDeliversItsPosition` | src/audio/native_input_capture.h:234-249 | a delivered frame is the accepted frame at the position recorded for it |
| `ControlBlock.HooksFireExactlyOnce` | src/audio/native_input_capture.h:193-202 | with releases of any number of threads interleaved, the shared hook has fired exactly when the last strong owner is gone and the weak hook exactly when no owner of any kind is left, never twice |
| `ControlBlock.FreedBlockIsQuiet` | src/audio/native_input_capture.h:193-202 | after the weak hook no operation on the block is possible |
| `ControlBlock.ReleaseDropsOneOwner` | src/audio/native_input_capture.h:193-202 | an undisturbed release drops one owner and fires the hooks it should |
| `NativeCapture.NativeInputCapture.StartSink` | src/audio/native_input_capture.h:156-192 | when a start succeeds; a new sink is last in its session, with the given object and owner, after the earlier ones unchanged, and the caller's reference is emptied; after success some sink of the session has the object; a duplicate or failed start moves nothing |
| `NativeCapture.NativeInputCapture.StopSink` | src/audio/native_input_capture.h:212-226 | releases exactly the first sink with the object, leaves the others in order and closes an emptied session; an unknown one changes nothing |
| `NativeCapture.StopUndoesStart` | src/audio/native_input_capture.h:186-226 | a stop of the same object right after a start that moved a reference in releases exactly that reference on its own control block and leaves every session as it was |
| `NativeCapture.SecondStartMovesNothing` | src/audio/native_input_capture.h:166-170 | a second start of the same object moves nothing |
| `NativeCapture.NativeInputCapture.Close` | src/audio/native_input_capture.h:203-211 | releases the references of the session's sinks, all of them, first to last, and keeps the books balanced |
| `NativeCapture.NativeInputCapture.Shutdown` | src/audio/native_input_capture.h:100-105 | afterwards every reference ever moved in has been released exactly once |
| `NativeCapture.AllReleasedOnce` | src/audio/native_input_capture.h:193-226 | balanced books without sessions mean each reference was released exactly once |
| `NativeCapture.MoveInBalances` | src/audio/native_input_capture.h:186-191 | moving a reference in keeps the books balanced |
| `NativeCapture.TakeOutBalances` | src/audio/native_input_capture.h:212-226 | taking a sink out keeps the books balanced |
| `MicrophoneSwitch.RecordingSubsystem.Create` | src/audio/sdl_audio_capture.cc:386-454 | an opened capture is registered with a paused stream of its own; a failed one leaves nothing |
| `MicrophoneSwitch.RecordingSubsystem.Shutdown` | src/audio/sdl_audio_capture.cc:123-145 | the capture leaves the registry and its stream is destroyed |
| `MicrophoneSwitch.RecordingSubsystem.PrepareAll` | src/audio/sdl_audio_capture.cc:484-488 | replacements are opened, paused, up to the first failure; it succeeds exactly when the host opens all of them |
| `MicrophoneSwitch.RecordingSubsystem.PauseAll` | src/audio/sdl_audio_capture.cc:489-495 | succeeds exactly when the host reports every old stream paused and lockable; with effective pauses every old stream is then silent |
| `MicrophoneSwitch.RecordingSubsystem.StartAll` | src/audio/sdl_audio_capture.cc:496-502 | succeeds exactly when the host reports every needed resume; one unpaused stream per capture at most |
| `MicrophoneSwitch.RecordingSubsystem.RollBack` | src/audio/sdl_audio_capture.cc:503-513 | every replacement is destroyed, every capture has its old stream back, and what recorded records again |
| `MicrophoneSwitch.RecordingSubsystem.CommitAll` | src/audio/sdl_audio_capture.cc:189-192 | every old stream is destroyed and its replacement owned |
| `MicrophoneSwitch.RecordingSubsystem.Switch` | src/audio/sdl_audio_capture.cc:456-519 | succeeds exactly when the device resolves, the subsystem is up and every open, pause, lock and needed resume succeeds; all or nothing over any number of captures, configuration included; the trace records every state from the first to the last, one host call apart, and with effective pauses at most one stream per capture is unpaused in each of them |
| `Bisection.FindFirstBad` | scripts/bisect_libroblox_ctors.py:405-446 | finds the smallest bad constructor that still runs, with its offset, in logarithmically many trials; none exactly when the full set does not fail |
| `Bisection.CeilLog2IsLogarithm` | scripts/bisect_libroblox_ctors.py:421-437 | the bound on trials is the rounded-up logarithm |
| `Bisection.TracksStep` | scripts/bisect_libroblox_ctors.py:566-588 | quarantining the smallest remaining constructor keeps the found list the smallest ones in order |
| `Bisection.RemainingStep` | scripts/bisect_libroblox_ctors.py:581-582 | quarantining a constructor takes exactly that one out of the remaining ones |
| `Bisection.Quarantine` | scripts/bisect_libroblox_ctors.py:566-588 | after k rounds the found list is the k smallest bad constructors in order; it ends clean if and only if fewer constructors remained than there were rounds, and then none is left |
| `Bisection.ScanNeverAdvances` | scripts/bisect_libroblox_ctors.py:449-495 | with a live bad constructor below its position the scan loop repeats for ever and keeps adding the same entry |
| `Bisection.ScanEndsIff` | scripts/bisect_libroblox_ctors.py:449-495 | the scan loop ends if and only if its start is not below its end or no live bad constructor lies below its start |
| `Bisection.ScanPrefix` | scripts/bisect_libroblox_ctors.py:449-495 | where it ends it has listed exactly the live constructors below its limit, in order, and leaves exactly the others; a scan with nothing to do changes nothing |
| `Bisection.LocateBadConstructors` | scripts/bisect_libroblox_ctors.py:555-588 | baseline, scan and bisection together list bad constructors smallest first; clean if and only if fewer are left to the bisection than it has rounds, and then all are listed |
| `VtablePatch.SlotsAreDistinct` | include/compat/build_profile.h:34-53 | in both layouts the patched slots are pairwise distinct and inside slots 4 to select |
| `VtablePatch.SlotsCoverTable` | include/compat/build_profile.h:34-53 | with input, every slot from 4 to the last is replaced, except 7 and 11 in the second layout; without, the four output slots |
| `VtablePatch.PageRangeCoversSlots` | src/audio/roblox_output_device_bridge.cc:98-124 | the range made writable is whole pages, does not wrap, covers every slot, and exceeds them by less than a page on each side |
| `VtablePatch.PageRangeExists` | src/audio/roblox_output_device_bridge.cc:98-124 | there is a range exactly when the last slot ends at least a page before the end of the address space |
| `VtablePatch.RestoreUndoesPatch` | src/audio/roblox_output_device_bridge.cc:525-549 | writing back what distinct slots held undoes any writes to them |
| `VtablePatch.WrittenAt` | src/audio/roblox_output_device_bridge.cc:494-524 | writes to distinct slots set exactly those slots |
| `VtablePatch.Bridge.CheckCaptures` | src/audio/roblox_output_device_bridge.cc:457-469 | accepts the capture slots exactly when they hold image code, pairwise distinct, and none of the input methods |
| `VtablePatch.Bridge.CheckAndSave` | src/audio/roblox_output_device_bridge.cc:419-489 | accepts exactly a table the profile describes, and then saves what every slot about to be replaced holds |
| `VtablePatch.Bridge.Patch` | src/audio/roblox_output_device_bridge.cc:478-555 | succeeds exactly when the table is the one the profile describes and the pages can be unlocked and locked; then exactly the slots of the layout are replaced and the originals remembered; every failure leaves the table identical |
| `VtablePatch.Bridge.Restore` | src/audio/roblox_output_device_bridge.cc:557-585 | puts the original table back whenever the pages can be made writable, and reports success exactly when they could also be locked again |

## Left out

- Status codes, messages and log lines; rejected arguments are one outcome.
- FMOD call counters other than buffers and bytes (attempts, rejections, active devices), and their transient values.
- A second FMOD or OpenSL Shutdown that waits for the first, with the notification that ends its wait, and device destruction by the last shared reference.
- FmodRuntimeRuns.CompletionIsFinal: sinks dropped by a failed allocation are named as such instead of being claimed shut down; FmodRuntimeRuns.SinksShutIffNoNullAllocation says when there are none. A call that is out of the count may still be about to notify.
- FmodTermination.ShutdownAlwaysCompletes: for schedules without spurious wake-ups of the condition variables; the bound counts steps, and the sink's own work on a call is one step.
- The copied PCM bytes and the sink's own format of an FMOD device.
- FmodWrites.AcceptedWrite: for a write that no other thread disturbs, like FmodWrites.RefusedWrite and FmodCalls.WriteIsSubmitted; FmodWrites.WriteAnswersTheTruth is for every interleaving.
- OpenSlEnqueues.AcceptedEnqueue: likewise for an Enqueue that nothing disturbs.
- LooperPolls.UndisturbedPoll: the calls into guest callbacks are steps whose answers are free; their arguments are not recorded.
- OpenSL event callbacks, GetState and the processed-buffer index; sink volume and pause calls are one "tune" step.
- OpenSL and FMOD counters are unbounded; 64-bit wrap-around of statistics is not modelled (tokens of the ALooper do wrap).
- OpenSlProgress.ShutdownAlwaysCompletes: callback registrations, which change nothing once a shutdown has begun, are not counted as steps.
- OpenSlRuns.ShutdownAndClearAreFinal: the claim about guest callbacks is for runs whose join succeeded; OpenSlCallbacks.LateCallbackIff says what holds when it failed.
- LooperRuns.IdentsAreCurrentAndInOrder: for executions that issue fewer than 2^64 tokens; callback entries of a batch are not claimed to be current, because the code does not test it.
- Kernel poll sets are per fd number: duplicated descriptors of one file are not distinguished. The wake descriptor takes no part in the executions.
- The APS2 decoder is a generator in the source; here it returns the whole list, so partial consumption is not modelled.
- Sample contents, audibility flags and the delivery calls to the sinks of a session.
- VtablePatch.Bridge.Patch: the ELF range checks are one yes-or-no input; the memory ordering of the slot stores is not modelled.
- Bisection.FindFirstBad: its guarantees are for trials that fail exactly when a live bad constructor is in the prefix and whose logs show every offset.
- Listing and resolving recording devices, Start and Stop of one capture outside a switch.
- Disassembly and semantic comparison of code, profile documents, update and download scripts, window, graphics, media and asset stubs: easier than, or independent of, the parts above.
