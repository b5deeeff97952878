# Verified models of NVIDIA kernel-module protocols

A Dafny 4.11 model of the concurrent protocols and of the layout and arithmetic cores of the NVIDIA
open kernel modules and of the nouveau firmware extraction script, with proofs. `dafny verify
dfyconfig.toml` checks the whole project.

What is modelled, and where:

- **Semaphore-surface fence contexts** (nvidia-drm-fence.c). `PendingFences` has the pending list and
  one pass over it, `SemaphoreValue` the 64-bit value rebuilt from a 32-bit slot, `SemsurfContext` the
  object with its locked sections. `SemsurfProtocol` is the transition system: any number of threads in
  the registration loop, callbacks that fire or are cancelled, timeouts, and the destructor, with NVKMS
  and the GPU as a nondeterministic environment. A pass takes fences off the list in one locked step and
  signals and puts them one by one afterwards, in steps that interleave with everything else. `SemsurfFences`,
  `SemsurfOrder`, `SemsurfSafety`, `SemsurfTheorems`, `SemsurfHarm` and `SemsurfWaiters` prove what holds over
  all runs.
- **PRIME fence contexts** (nvidia-drm-fence.c): `PrimeFences`.
- **The kthread work queue and the work thread** (nv-kthread-q.c, nvidia-drm-os-interface.c):
  `KthreadQueue`, `KthreadFlush`, `Workthread`.
- **The flip queue of a CRTC** (nvidia-drm-modeset.c, nvidia-drm-crtc.h): `FlipQueue`, `FlipProtocol`,
  `FlipOrder`.
- **NVKMS timers and ref_ptrs** (nvidia-modeset-linux.c): `NvkmsTimers`.
- **Modeset permissions** (nvidia-drm-drv.c, nvidia-drm-connector.c): `ModesetPermission`.
- **Display semaphores** (nvidia-drm-priv.h, nvidia-drm-modeset.c): `DisplaySemaphores`.
- **LUT surfaces and their references** (nvidia-drm-crtc.c): `VssHeader`, `OlutSurface`, `LutReferences`.
- **Firmware images** (extract-firmware-nouveau.py): `Bytes`, `ElfImage`, `ElfReader`, `FirmwareFile`,
  `FmcWriter`, `BooterWriter`.

Objects that the source updates in place are classes whose methods are proved against functions on a
value of the same fields (`View`). A protocol is a datatype of events with `Enabled` and `Next`; `ValidRun`
and `After` range over all finite runs, and a section of code under a lock is one step.

Assumptions, stated once:

- The GPU semaphore never goes back. Nothing is assumed about the samples of passes: where a result needs
  samples that are current, or not above the semaphore, it says so. The second is false of 32-bit slots
  (`StaleMaxSubmittedReadsHigh`); `RebuiltSampleTakesEarlyIff` says exactly when such a sample takes a fence
  early, and `NoFenceSignalledEarly` that no fence is signalled early otherwise.
- Unregistering an NVKMS callback succeeds exactly while the callback has not been called, and freeing a
  semaphore surface waits for the callbacks that have been called.
- A timer that carries a ref_ptr is made only while the owner of the ref_ptr is live.
- A queue is stopped once, a timer handle is freed once, and unloading NVKMS leaves no timer handle and no
  ref_ptr owner behind.
- The DRM core serialises the commits of a CRTC and holds the mode-config locks around permission changes.

Where a property turned out false of the code, the project has a concrete run or input and the exact
condition:

- A pass of `__nv_drm_semsurf_ctx_process_completed` signals the fences it took after it has dropped the lock, so
  two fences that wait for the same value can be signalled in the wrong order (`SignalsOutOfOrder`), although they
  leave the list in the right one (`TakenInCreationOrder`). A pass that takes fences of a value keeps their
  order, in every continuation in which later passes do not overtake either, exactly when no other pass still
  holds a fence of that value (`PassKeepsOrderIff`).
- A pass samples the semaphore before it takes the lock. With an old sample a callback that has already run can
  be installed, freed and then read (`StaleSampleLeavesFreedCallback`, `StaleSampleUsesFreedCallback`). A
  pass can lead to a freed callback that is still installed exactly when it leaves at the head of the list the
  value of a callback that has run and that a thread is still about to install (`PassDoesHarmIff`), which a
  pass with a current sample never does (`CurrentSampleIsNotTooOld`).
- The max-submitted word is read before the 32-bit slot. If it is so old that it is smaller than the slot,
  the rebuilt value is far too high (`StaleMaxSubmittedReadsHigh`, `RebuildNeverEarly`).
- A PRIME fence whose sequence number has wrapped is signalled early exactly while the semaphore has not
  wrapped (`WrapSignalsEarly`, `SignalledEarlyIff`).
- When the wait before a commit times out, flips are taken last-in first-out and events can be delivered out of
  order (`TimeoutReversesOrder`); that can happen exactly when an event is queued (`TimeoutKeepsOrderIff`).
- Revoking a lease that holds a granted CRTC but not its connector leaves a connector paired with a CRTC
  it does not own (`LeaseWithoutConnectorBreaksPair`, `LeaseRevokeKeepsMatchedIff`).

Where the code and its comments disagree, the model follows the code: the `.shstrtab` section header is a
32-bit one and sections are padded to 4 bytes, not the 64 bits and 8 bytes of the comments
(nouveau/extract-firmware-nouveau.py, lines 467 to 472 and 492).

## Model

| member | source | states |
|---|---|---|
| PendingFences.InsertAt | kernel-open/nvidia-drm/nvidia-drm-fence.c:1405-1424 | the walk to the first larger value, or to the tail, is the insertion used in the specification |
| PendingFences.InsertKeepsContents | kernel-open/nvidia-drm/nvidia-drm-fence.c:1405-1424 | insertion adds the new fence and nothing else |
| PendingFences.InsertSorted | kernel-open/nvidia-drm/nvidia-drm-fence.c:1405-1424 | insertion keeps the pending list sorted by wait value |
| PendingFences.InsertStable | kernel-open/nvidia-drm/nvidia-drm-fence.c:1405-1424 | one insertion is stable: for every value, the fences that wait for it keep their order and the new fence comes last |
| PendingFences.SweepPartitions | kernel-open/nvidia-drm/nvidia-drm-fence.c:835-850 | on a sorted list a pass cuts the list in three consecutive pieces: exactly the fences whose value is reached, then the longest expired run, then the rest |
| PendingFences.SweepMeaning | kernel-open/nvidia-drm/nvidia-drm-fence.c:835-899 | a pass loses, duplicates and mixes up no fence, and what it leaves is sorted and above the sample |
| SemaphoreValue.RebuildWindow | kernel-open/nvidia-drm/nvidia-drm-fence.c:720-735 | the rebuilt value is congruent to the slot and lies in the window of 2^32 values that ends at the max-submitted value, or wraps |
| SemaphoreValue.RebuildExact | kernel-open/nvidia-drm/nvidia-drm-fence.c:715-741 | the rebuilt value is the true value if and only if max-submitted is less than 2^32 ahead on the 64-bit circle |
| SemaphoreValue.RebuildNeverEarly | kernel-open/nvidia-drm/nvidia-drm-fence.c:722-735 | with a stale max-submitted word the sample is above the true value if and only if the stale word is smaller than the slot |
| SemaphoreValue.StaleMaxSubmittedReadsHigh | kernel-open/nvidia-drm/nvidia-drm-fence.c:722-735 | a concrete stale max-submitted word that makes the sample jump to 2^64 - 2^32 + 7 |
| SemaphoreValue.SamplesNondecreasing | kernel-open/nvidia-drm/nvidia-drm-fence.c:715-741 | samples are ordered exactly as the true values they were taken from |
| SemaphoreValue.PassNeverEarly | kernel-open/nvidia-drm/nvidia-drm-fence.c:824-844 | a pass with the rebuilt value finishes exactly the fences whose value the timeline has reached |
| SemaphoreValue.RebuiltSampleTakesEarlyIff | kernel-open/nvidia-drm/nvidia-drm-fence.c:722-735 | a pass with a rebuilt sample takes a fence early if and only if max-submitted was smaller than the slot and a pending fence is above the semaphore and not above the wrapped value |
| SemsurfContext.ZeroMeansNothingToRegister | kernel-open/nvidia-drm/nvidia-drm-fence.c:859-879 | the result 0 means exactly that no fence is left or that the head already has its waiter; otherwise the context waits for the head, which is not 0 |
| SemsurfContext.SemsurfFenceCtx.AddPendingFence | kernel-open/nvidia-drm/nvidia-drm-fence.c:1405-1424 | the list walk inserts as specified and touches nothing else |
| SemsurfContext.SemsurfFenceCtx.TakeCompleted | kernel-open/nvidia-drm/nvidia-drm-fence.c:833-881 | the locked section takes exactly what the specified pass takes, and gives the new wait value and timeout |
| SemsurfContext.SemsurfFenceCtx.ProcessCompleted | kernel-open/nvidia-drm/nvidia-drm-fence.c:824-899 | with nobody interfering the pass signals what it took, finished fences before timed out ones, and drops a list reference each |
| SemsurfContext.SemsurfFenceCtx.SignalAll | kernel-open/nvidia-drm/nvidia-drm-fence.c:883-899 | every fence taken off the list is signalled once and loses the reference of the list once, in list order |
| SemsurfContext.SemsurfFenceCtx.CallbackFired | kernel-open/nvidia-drm/nvidia-drm-fence.c:909-919 | the whole new state of the context after the locked section of a callback |
| SemsurfContext.SemsurfFenceCtx.StoreCallback | kernel-open/nvidia-drm/nvidia-drm-fence.c:958-967 | the callback is installed exactly when its value is still current; the one it displaces is returned |
| SemsurfContext.SemsurfFenceCtx.ForceCompletePending | kernel-open/nvidia-drm/nvidia-drm-fence.c:753-767 | every pending fence is signalled with the timeout error and loses the reference of the list, in order |
| SemsurfSafety.CurrentSampleIsNotTooOld | kernel-open/nvidia-drm/nvidia-drm-fence.c:824-833 | a sample that is still current when the lock is taken is never too old |
| SemsurfSafety.ProcessKeepsInv | kernel-open/nvidia-drm/nvidia-drm-fence.c:824-879 | a pass whose sample is not too old keeps the ownership invariant |
| SemsurfSafety.TooOldArms | kernel-open/nvidia-drm/nvidia-drm-fence.c:824-879 | after a pass whose sample is too old, some thread is about to install a callback that has already run and will find its value current |
| SemsurfSafety.RegisterKeepsInv | kernel-open/nvidia-drm/nvidia-drm-fence.c:1046-1074 | registration, whatever NVKMS answers, keeps the ownership invariant |
| SemsurfSafety.StoreKeepsInv | kernel-open/nvidia-drm/nvidia-drm-fence.c:958-989 | storing a callback, with or without displacing another, keeps the ownership invariant |
| SemsurfSafety.UnregisterKeepsInv | kernel-open/nvidia-drm/nvidia-drm-fence.c:1104-1111 | cancelling a callback, in a race with its firing, keeps the ownership invariant |
| SemsurfSafety.LockedKeepsInv | kernel-open/nvidia-drm/nvidia-drm-fence.c:909-919 | the locked section of a firing callback keeps the ownership invariant |
| SemsurfSafety.EnqueueKeepsInv | kernel-open/nvidia-drm/nvidia-drm-fence.c:929-935 | queueing the work item of a callback, or freeing it when the gate is closed, keeps the ownership invariant |
| SemsurfSafety.ReturnKeepsInv | kernel-open/nvidia-drm/nvidia-drm-fence.c:787-795 | the work item frees its callback once and nobody else does |
| SemsurfSafety.DestroyUnregisterKeepsInv | kernel-open/nvidia-drm/nvidia-drm-fence.c:1142-1155 | the destructor cancels the installed callback without giving up its memory |
| SemsurfSafety.CompletePendingKeepsInv | kernel-open/nvidia-drm/nvidia-drm-fence.c:1175-1181 | the destructor frees the installed callback once and takes all pending fences |
| SemsurfSafety.StepKeepsInv | kernel-open/nvidia-drm/nvidia-drm-fence.c:787-1184 | every step of adders, timeouts, callbacks, registrations and the destructor keeps the ownership invariant, unless a sample is too old |
| SemsurfFences.PassTakes | kernel-open/nvidia-drm/nvidia-drm-fence.c:833-881 | a pass moves fences from the front of the list, in order, to the hand of whoever makes it; it signals and puts nothing before it drops the lock |
| SemsurfFences.PassKeepsLine | kernel-open/nvidia-drm/nvidia-drm-fence.c:833-881 | a pass changes nothing in the line made of the fences taken so far and then the pending ones |
| SemsurfFences.AddKeepsLine | kernel-open/nvidia-drm/nvidia-drm-fence.c:1405-1424 | an insertion keeps the list sorted and the fences of each value in the order of creation |
| SemsurfFences.RunKeepsLine | kernel-open/nvidia-drm/nvidia-drm-fence.c:815-900 | over every run the list stays sorted and the fences of each value keep the order of creation through the list |
| SemsurfFences.TakenInCreationOrder | kernel-open/nvidia-drm/nvidia-drm-fence.c:833-881 | over every run the fences taken off the list with one value, followed by those pending with it, are those created with it, in the order of creation |
| SemsurfFences.FencesConserved | kernel-open/nvidia-drm/nvidia-drm-fence.c:815-900 | over every run and interleaving each fence added is in exactly one place: pending, held by one pass, signalled and still referenced, or signalled and put; taken, signalled and put once at most, and a fence never added is nowhere |
| SemsurfFences.ListReferences | kernel-open/nvidia-drm/nvidia-drm-fence.c:883-899 | over every run a fence about to be signalled is still referenced and not yet signalled; a fence about to be put has been signalled once and has not been put |
| SemsurfFences.DestroySignalsAll | kernel-open/nvidia-drm/nvidia-drm-fence.c:1115-1184 | when the context is freed nobody has fences in hand, and every fence ever added has been signalled once and put once |
| SemsurfFences.HandIsEarlyIff | kernel-open/nvidia-drm/nvidia-drm-fence.c:833-848 | a pass takes a fence early, without the timeout error, exactly when its sample covers the value of a pending fence that the semaphore is still below |
| SemsurfFences.NoFenceSignalledEarly | kernel-open/nvidia-drm/nvidia-drm-fence.c:883-889 | over every run in which no pass takes early, a fence signalled without error had its value reached |
| SemsurfFences.DrainHand | kernel-open/nvidia-drm/nvidia-drm-fence.c:883-899 | whatever else is going on, a pass can signal and put all it took, in order, touching nothing else |
| SemsurfOrder.CalmRunSignalsInOrder | kernel-open/nvidia-drm/nvidia-drm-fence.c:881-899 | when no pass takes fences of a value while another holds some, the signals of that value are in the order of creation |
| SemsurfOrder.AllTakenSignalled | kernel-open/nvidia-drm/nvidia-drm-fence.c:881-899 | when signals are in order and nobody holds a fence of the value, the signals of that value are exactly the fences taken |
| SemsurfOrder.CrowdedPassBreaksOrder | kernel-open/nvidia-drm/nvidia-drm-fence.c:881-899 | a pass that takes fences of a value while another holds some has a continuation that signals them out of order |
| SemsurfOrder.PassKeepsOrderIff | kernel-open/nvidia-drm/nvidia-drm-fence.c:881-899 | after a run in order, a pass that takes fences of a value keeps their order in every continuation without another such crowded pass, if and only if no pass holds a fence of the value |
| SemsurfOrder.SignalsOutOfOrder | kernel-open/nvidia-drm/nvidia-drm-fence.c:881-889 | a concrete run of two fence creations whose fences, both for value 5, are signalled in reverse order |
| SemsurfTheorems.CurrentRunIsTimely | kernel-open/nvidia-drm/nvidia-drm-fence.c:824-833 | runs in which every sample is current at lock time have no sample that is too old |
| SemsurfTheorems.TimelyRunKeepsInv | kernel-open/nvidia-drm/nvidia-drm-fence.c:787-1184 | the ownership invariant holds after every timely run |
| SemsurfTheorems.InstalledCallbackIsLive | kernel-open/nvidia-drm/nvidia-drm-fence.c:668-681 | after every timely run both callback pointers are set or both are NULL, and the installed callback has not been freed |
| SemsurfHarm.FromArmed | kernel-open/nvidia-drm/nvidia-drm-fence.c:787-967 | once a thread is about to install a callback that has run, the run can go on so that the installed callback is freed, whatever its work item and the other threads are doing |
| SemsurfHarm.PassDoesHarmIff | kernel-open/nvidia-drm/nvidia-drm-fence.c:824-967 | a pass can be followed by a run, with no further sample that is too old, that leaves a freed callback installed, if and only if its own sample is too old |
| SemsurfTheorems.RetiredValueNeverReturns | kernel-open/nvidia-drm/nvidia-drm-fence.c:902-919 | once a callback has run its locked section, current_wait_value is never its wait value again, in any continuation in which no pass leaves a retired value at the head |
| SemsurfTheorems.CurrentRunHasNoRevival | kernel-open/nvidia-drm/nvidia-drm-fence.c:824-833 | no pass with a current sample leaves a retired value at the head |
| SemsurfTheorems.NoUseAfterFree | kernel-open/nvidia-drm/nvidia-drm-fence.c:787-1184 | no step of a timely run reads, writes or frees a callback object that has been freed |
| SemsurfTheorems.FreedExactlyOnce | kernel-open/nvidia-drm/nvidia-drm-fence.c:787-1184 | a callback object is freed at most once, and exactly once when the context is gone |
| SemsurfTheorems.StaleSampleLeavesFreedCallback | kernel-open/nvidia-drm/nvidia-drm-fence.c:824-879 | a concrete run of two fence creations, one of them with an old sample, that leaves a freed callback installed |
| SemsurfTheorems.StaleSampleUsesFreedCallback | kernel-open/nvidia-drm/nvidia-drm-fence.c:958-962 | the run goes on so that the next store reads the wait value of the freed callback |
| SemsurfWaiters.ProcessAims | kernel-open/nvidia-drm/nvidia-drm-fence.c:859-879 | a reporting pass makes the context wait for the new head of the list |
| SemsurfWaiters.CooperativeRunKeepsWaitInv | kernel-open/nvidia-drm/nvidia-drm-fence.c:998-1113 | while fences are pending there is a waiter for the head or somebody who is about to look again |
| SemsurfWaiters.NoFenceLacksWaiter | kernel-open/nvidia-drm/nvidia-drm-fence.c:859-1113 | in a quiescent state with pending fences the installed callback is registered for exactly the smallest pending value |
| PrimeFences.PrimeFenceContext.SignalFirst | kernel-open/nvidia-drm/nvidia-drm-fence.c:145-151 | the head leaves the list, is signalled, and only then loses the reference of the context |
| PrimeFences.PrimeFenceContext.ForceFenceSignal | kernel-open/nvidia-drm/nvidia-drm-fence.c:153-166 | the loop signals every pending fence by force |
| PrimeFences.PrimeFenceContext.FenceEvent | kernel-open/nvidia-drm/nvidia-drm-fence.c:168-201 | the loop, which reads the semaphore for every fence, computes the specified event |
| PrimeFences.PrimeFenceContext.CreateFence | kernel-open/nvidia-drm/nvidia-drm-fence.c:356-381 | the whole new state after a creation, with the forced signals of a wrap |
| PrimeFences.CreateKeepsInv | kernel-open/nvidia-drm/nvidia-drm-fence.c:358-380 | a creation, also across a wrap, keeps the list nondecreasing with its last element equal to last_seqno, and all fences and references accounted for |
| PrimeFences.EventKeepsInv | kernel-open/nvidia-drm/nvidia-drm-fence.c:176-198 | an event keeps the same invariant whatever the semaphore reads |
| PrimeFences.RunKeepsInv | kernel-open/nvidia-drm/nvidia-drm-fence.c:145-201 | over every run the fences signalled, followed by the pending ones, are the fences created in that order, and a fence is signalled only while a reference is held |
| PrimeFences.OneReferencePerPendingFence | kernel-open/nvidia-drm/nvidia-drm-fence.c:374-377 | over every run the context holds one reference to each pending fence and none to any other |
| PrimeFences.EventTakes | kernel-open/nvidia-drm/nvidia-drm-fence.c:176-198 | an event takes a prefix off the list and signals it in order |
| PrimeFences.EventSignals | kernel-open/nvidia-drm/nvidia-drm-fence.c:178-198 | with a semaphore that rises during the event, at least what the first read covers and at most what the last read covers is signalled |
| PrimeFences.EventExact | kernel-open/nvidia-drm/nvidia-drm-fence.c:178-198 | with a fixed semaphore value exactly the pending fences at or below it are signalled |
| PrimeFences.SignalledEarlyIff | kernel-open/nvidia-drm/nvidia-drm-fence.c:184-197 | after any run, across a wrap, an event takes a fence that is not due for a completed one if and only if the counter of the fence has wrapped and the semaphore has not |
| PrimeFences.WrapSignalsEarly | kernel-open/nvidia-drm/nvidia-drm-fence.c:184-197 | a concrete run of two creations around the wrap and one event that signals a fence early |
| KthreadQueue.StepKeepsInv | kernel-open/nvidia-drm/nv-kthread-q.c:58-131 | tokens, tokens on their way and the unspent token of the worker always pay for the queued items and the exit |
| KthreadQueue.QueueIsSound | kernel-open/nvidia-drm/nv-kthread-q.c:58-99 | over every run the worker never finds the list empty, no item is queued twice, and items start in the order of acceptance |
| KthreadQueue.NoLostWakeup | kernel-open/nvidia-drm/nv-kthread-q.c:240-258 | a queued item always has a token or a scheduler about to give one |
| KthreadQueue.NvKthreadQ.InsertLocked | kernel-open/nvidia-drm/nv-kthread-q.c:245-252 | an item is appended exactly when it is not queued already |
| KthreadQueue.NvKthreadQ.RaiseSemaphore | kernel-open/nvidia-drm/nv-kthread-q.c:254-255 | the semaphore goes up by one for one accepted item |
| KthreadQueue.NvKthreadQ.Iterate | kernel-open/nvidia-drm/nv-kthread-q.c:64-99 | one iteration of the worker is exactly four steps of the protocol, and never meets an empty list |
| KthreadQueue.NvKthreadQ.RunQueued | kernel-open/nvidia-drm/nv-kthread-q.c:64-99 | the loop runs every queued item once and in order and uses up every token |
| KthreadFlush.FlushRunsGenerations | kernel-open/common/inc/nv-kthread-q.h:145-162 | after n raw flushes, with any scheduling going on, nothing that is fewer than n scheduling steps away from the original queue is queued or running |
| KthreadFlush.FlushesDrain | kernel-open/nvidia-drm/nv-kthread-q.c:289-317 | with no outside scheduling d + 1 raw flushes empty the queue when chains of rescheduling have at most d links |
| KthreadFlush.StopFindsListEmpty | kernel-open/nvidia-drm/nv-kthread-q.c:107-131 | two flushes leave an empty list when every item reschedules at most once more |
| KthreadFlush.FewerFlushesDoNotDrain | kernel-open/nvidia-drm/nv-kthread-q.c:312-316 | the bound is tight: for every d there is a run in which d raw flushes leave an item queued |
| Workthread.StepKeepsInv | kernel-open/nvidia-drm/nvidia-drm-os-interface.c:178-208 | adders, self-adders, the worker and shutdown keep the invariant of the work thread in every interleaving |
| Workthread.ShutdownRunsAllAccepted | kernel-open/nvidia-drm/nvidia-drm-os-interface.c:178-187 | when shutdown returns, everything ever accepted has run once per acceptance and in order |
| Workthread.NothingAcceptedAfterClose | kernel-open/nvidia-drm/nvidia-drm-os-interface.c:196-208 | from the moment the gate closes every add is refused |
| Workthread.ShutdownNeverStuck | kernel-open/nvidia-drm/nvidia-drm-os-interface.c:178-187 | while shutdown waits, the worker can take a step |
| FlipQueue.DequeueSpends | kernel-open/nvidia-drm/nvidia-drm-crtc.h:340-360 | a dequeue spends exactly one expected hardware event and never underflows the counter |
| FlipQueue.DeferAdds | kernel-open/nvidia-drm/nvidia-drm-modeset.c:836-851 | deferring adds the flip behind the last queued flip and changes no other owner or event |
| FlipQueue.NvDrmCrtc.WillGenerateFlipEvent | kernel-open/nvidia-drm/nvidia-drm-modeset.c:94-136 | the counter is the number of planes for which hardware will report, and the result says whether there is one |
| FlipQueue.NvDrmCrtc.ProcessDeferred | kernel-open/nvidia-drm/nvidia-drm-modeset.c:667-681 | the loop delivers the events of the deferred flips in order, drops one vblank reference each and frees each flip once |
| FlipQueue.NvDrmCrtc.HandleFlipEvent | kernel-open/nvidia-drm/nvidia-drm-modeset.c:640-688 | one hardware event: the new list, the events delivered, the references dropped and the flips freed |
| FlipQueue.NvDrmCrtc.DrainFlips | kernel-open/nvidia-drm/nvidia-drm-modeset.c:902-904 | the forced drain ends, by the sum of pending events, with an empty list |
| FlipProtocol.VblankReferencesBalance | kernel-open/nvidia-drm/nvidia-drm-modeset.c:458-467 | over every run vblank gets minus puts equals the undelivered events, and every queued flip expects at least one hardware event |
| FlipProtocol.FlipObjectsHaveOneOwner | kernel-open/nvidia-drm/nvidia-drm-modeset.c:830-868 | over every run each flip object has one owner or has been freed once |
| FlipOrder.DeliveredInCommitOrder | kernel-open/nvidia-drm/nvidia-drm-modeset.c:646-651 | unless a wait before a commit times out with an event queued, events are delivered in commit order and those still to come follow in that order |
| FlipOrder.AtMostOneQueued | kernel-open/nvidia-drm/nvidia-drm-modeset.c:739-752 | unless a wait before a commit times out with a flip queued, the list never holds more than one flip |
| FlipOrder.TimeoutKeepsOrderIff | kernel-open/nvidia-drm/nvidia-drm-modeset.c:739-752 | a wait that times out leaves the order of delivery safe in every continuation if and only if no event is queued |
| FlipOrder.TimeoutCanReverse | kernel-open/nvidia-drm/nvidia-drm-modeset.c:739-752 | after any run, whatever the handler is doing, a wait that times out with an event queued can be followed by a successful commit whose event overtakes it |
| FlipOrder.TimeoutReversesOrder | kernel-open/nvidia-drm/nvidia-drm-modeset.c:744-751 | a concrete run in which the wait times out and two events are delivered in reverse order |
| NvkmsTimers.StepKeepsInv | kernel-open/nvidia-modeset/nvidia-modeset-linux.c:998-1174 | every step keeps the memory state of timers and the counts of ref_ptrs exact |
| NvkmsTimers.TimerMemoryFreedOnce | kernel-open/nvidia-modeset/nvidia-modeset-linux.c:1041-1051 | the memory of a timer is released at most once, and exactly once when its handle is freed and its callback is over |
| NvkmsTimers.NoUseAfterFree | kernel-open/nvidia-modeset/nvidia-modeset-linux.c:926-1174 | no step touches a timer or a ref_ptr whose memory has been released |
| NvkmsTimers.RefCountExact | kernel-open/nvidia-modeset/nvidia-modeset-linux.c:926-963 | the count of a ref_ptr is its live owner plus the timers that wait on it, and it is released exactly when both are gone |
| NvkmsTimers.NeverStartsAfterFree | kernel-open/nvidia-modeset/nvidia-modeset-linux.c:1160-1174 | after the timer or the owner of its ref_ptr is freed, the proc is never started, in any continuation |
| NvkmsTimers.ExitMakesProgress | kernel-open/nvidia-modeset/nvidia-modeset-linux.c:2201-2241 | after unloading every step brings one timer closer to its end and no proc starts |
| NvkmsTimers.ExitNeverStuck | kernel-open/nvidia-modeset/nvidia-modeset-linux.c:2201-2241 | after unloading some step is possible while a timer is left |
| NvkmsTimers.ExitIsBounded | kernel-open/nvidia-modeset/nvidia-modeset-linux.c:2201-2241 | after unloading, a run has at most as many events as steps were left over all timers |
| NvkmsTimers.ExitCompletes | kernel-open/nvidia-modeset/nvidia-modeset-linux.c:2201-2241 | every run after unloading goes on to one in which every timer and every ref_ptr has been released exactly once |
| NvkmsTimers.ExitReleasesEverything | kernel-open/nvidia-modeset/nvidia-modeset-linux.c:2201-2241 | when no timer is left after unloading, every timer and every ref_ptr has been released exactly once |
| NvkmsTimers.TimerList.Dispose | kernel-open/nvidia-modeset/nvidia-modeset-linux.c:2214-2230 | one deactivated timer leaves the list, gives back its reference and is freed |
| NvkmsTimers.TimerList.DrainArmed | kernel-open/nvidia-modeset/nvidia-modeset-linux.c:2201-2238 | the restarting loop ends, leaves no armed timer, and is a sequence of drain steps |
| ModesetPermission.RevokeKeepsMatchedIff | kernel-open/nvidia-drm/nvidia-drm-connector.c:800-817 | revoking keeps the exclusive pairing if and only if no CRTC is revoked without the connector it is paired with |
| ModesetPermission.LeaseRevokeKeepsMatchedIff | kernel-open/nvidia-drm/nvidia-drm-drv.c:1720-1736 | revoking a lease keeps the pairing if and only if the lease holds the paired connector of each granted CRTC in it |
| ModesetPermission.LeaseWithoutConnectorBreaksPair | kernel-open/nvidia-drm/nvidia-drm-drv.c:1720-1736 | a concrete run, a grant and then a lease with the granted CRTC and another connector, which breaks the pairing |
| ModesetPermission.CloseRevokesAll | kernel-open/nvidia-drm/nvidia-drm-drv.c:1493-1518 | closing a file keeps the pairing and leaves nothing owned by the file |
| ModesetPermission.GrantKeepsMatched | kernel-open/nvidia-drm/nvidia-drm-drv.c:1354-1356 | granting a free connector and a free CRTC keeps the pairing |
| ModesetPermission.WinnerIsUnique | kernel-open/nvidia-drm/nvidia-drm-drv.c:1277-1346 | a grant can go to at most one connector and one CRTC |
| ModesetPermission.RevokeKeepsGood | kernel-open/nvidia-drm/nvidia-drm-drv.c:1497-1518 | a revocation or a close, complete or interrupted at any connector, keeps the pairing |
| ModesetPermission.StepKeepsGood | kernel-open/nvidia-drm/nvidia-drm-drv.c:1240-1736 | each operation of the driver keeps the pairing and the heads distinct, a lease revocation if the lease is paired |
| ModesetPermission.RunKeepsMatched | kernel-open/nvidia-drm/nvidia-drm-drv.c:1240-1736 | from an ungranted device every sequence of grants, revocations, closes, disconnects, paired lease revocations and reconfigurations keeps the pairing exclusive with matching owners |
| ModesetPermission.NvDrmDevice.FindDisplay | kernel-open/nvidia-drm/nvidia-drm-drv.c:1277-1286 | the first connector with the display, or none if there is none |
| ModesetPermission.NvDrmDevice.FreeHeads | kernel-open/nvidia-drm/nvidia-drm-drv.c:1305-1314 | the heads collected are exactly those of the available CRTCs |
| ModesetPermission.NvDrmDevice.WithoutUsed | kernel-open/nvidia-drm/nvidia-drm-drv.c:1321-1327 | exactly the heads that no connector uses are left |
| ModesetPermission.NvDrmDevice.ChooseCrtc | kernel-open/nvidia-drm/nvidia-drm-drv.c:1305-1346 | the first candidate is found, and none is missed: a CRTC with the head in use if that is free, else one that no connector uses |
| ModesetPermission.NvDrmDevice.Grant | kernel-open/nvidia-drm/nvidia-drm-drv.c:1257-1356 | a grant is made exactly when connector, CRTC and NVKMS allow it, the CRTC is never NULL, and the pairing is kept |
| ModesetPermission.NvDrmDevice.RevokeConnector | kernel-open/nvidia-drm/nvidia-drm-connector.c:800-817 | the whole new state after revoking one connector |
| ModesetPermission.NvDrmDevice.Disconnect | kernel-open/nvidia-drm/nvidia-drm-connector.c:259-262 | a disconnect revokes the grant of the connector, if there is one |
| ModesetPermission.NvDrmDevice.RevokeFile | kernel-open/nvidia-drm/nvidia-drm-drv.c:1497-1518 | an uninterrupted revoke-all leaves nothing owned by the file, and an interrupted one keeps the pairing |
| ModesetPermission.NvDrmDevice.FinishRevoking | kernel-open/nvidia-drm/nvidia-drm-drv.c:1720-1736 | the loops revoke exactly the leased objects, and the pairing survives if and only if the lease is paired |
| DisplaySemaphores.EveryIndexTriedOnce | kernel-open/nvidia-drm/nvidia-drm-priv.h:202-213 | from any valid start a full round tries every index exactly once |
| DisplaySemaphores.Device.Next | kernel-open/nvidia-drm/nvidia-drm-priv.h:202-213 | the index handed out and the wrapped next index |
| DisplaySemaphores.Device.Allocate | kernel-open/nvidia-drm/nvidia-drm-modeset.c:246-262 | the search returns the first index NVKMS grants, or has tried a full round and left the next index where it was |
| DisplaySemaphores.Device.PlaneFenceCallback | kernel-open/nvidia-drm/nvidia-drm-modeset.c:164-177 | the callback drops its fence reference and signals its semaphore, once each |
| DisplaySemaphores.Device.FireCallback | kernel-open/nvidia-drm/nvidia-drm-modeset.c:164-177 | a registered callback that fires is gone afterwards, with its fence reference dropped and its semaphore signalled |
| DisplaySemaphores.Device.ConvertInFences | kernel-open/nvidia-drm/nvidia-drm-modeset.c:179-312 | the loop over the planes, with every error exit, computes the specified conversion |
| DisplaySemaphores.ConvertKeeps | kernel-open/nvidia-drm/nvidia-drm-modeset.c:200-310 | however a conversion ends, no fence reference is lost or dropped twice and no initialised semaphore is left without an owner |
| DisplaySemaphores.ConvertRequests | kernel-open/nvidia-drm/nvidia-drm-modeset.c:264-300 | planes request only initialised semaphores, and every fence that is taken over has its semaphore requested |
| DisplaySemaphores.SemaphoresBalance | kernel-open/nvidia-drm/nvidia-drm-modeset.c:164-312 | over every run, with callbacks firing between planes, each initialised semaphore has been signalled once, cancelled once, or belongs to a registered callback |
| DisplaySemaphores.ConversionIsRun | kernel-open/nvidia-drm/nvidia-drm-modeset.c:179-312 | a conversion in which no callback fires is the run of its plane steps |
| DisplaySemaphores.OneCallbackPerSemaphore | kernel-open/nvidia-drm/nvidia-drm-modeset.c:164-312 | when NVKMS does not initialise a busy semaphore, an open semaphore belongs to exactly one registered callback |
| OlutSurface.InterpolateBounds | kernel-open/nvidia-drm/nvidia-drm-crtc.c:867-883 | an interpolated value is between its neighbours up to one below, is exact at the ends, and fits 16 bits |
| OlutSurface.InterpolateLosesOne | kernel-open/nvidia-drm/nvidia-drm-crtc.c:867-883 | the lower bound is reached |
| OlutSurface.LookupBetween | kernel-open/nvidia-drm/nvidia-drm-crtc.c:963-1006 | every component looked up lies between its two neighbours up to one below, and the index is in range |
| OlutSurface.SurfaceSize | kernel-open/nvidia-drm/nvidia-drm-crtc.c:496-498 | the surface size is the least multiple of 256 bytes that holds header and entries |
| OlutSurface.HeaderEntry | kernel-open/nvidia-drm/nvidia-drm-crtc.c:944-953 | the inner loop computes the specified header word |
| OlutSurface.WriteHeader | kernel-open/nvidia-drm/nvidia-drm-crtc.c:942-954 | the four header words hold the segment sizes, three bits each |
| OlutSurface.WriteColor | kernel-open/nvidia-drm/nvidia-drm-crtc.c:957-1020 | the loop body stays inside the buffer, never meets the BUG_ON and writes only its own entry |
| OlutSurface.CreateOlut | kernel-open/nvidia-drm/nvidia-drm-crtc.c:885-1025 | the header, every colour entry and the duplicated last entry are in place in a buffer of the specified size |
| OlutSurface.HeaderReadsBackIff | kernel-open/nvidia-drm/nvidia-drm-crtc.c:942-954 | the header decodes to the segment sizes if and only if they all fit three bits |
| VssHeader.EntryDecodesIff | kernel-open/nvidia-drm/nvidia-drm-crtc.c:944-953 | a header entry built with shifts and bitwise or decodes to its sizes if and only if they fit three bits |
| LutReferences.DropKeepsInv | kernel-open/nvidia-drm/nvidia-drm-crtc.c:1424-1429 | putting a surface and clearing the pointer keeps every count equal to the pointers, and the last put releases the surface |
| LutReferences.FillKeepsInv | kernel-open/nvidia-drm/nvidia-drm-crtc.c:1431-1443 | a new surface starts with the one reference of the state that stores it |
| LutReferences.CopyKeepsInv | kernel-open/nvidia-drm/nvidia-drm-crtc.c:2136-2140 | copying a pointer with a reference keeps the counts exact |
| LutReferences.Duplicate | kernel-open/nvidia-drm/nvidia-drm-crtc.c:2136-2151 | the new state points where the old one does, every pointer has its own reference, and no surface is made or released |
| LutReferences.Replace | kernel-open/nvidia-drm/nvidia-drm-crtc.c:1424-1444 | the pointer becomes a fresh surface or null, the old surface loses one reference, and nothing else changes |
| LutReferences.PlaneCheck | kernel-open/nvidia-drm/nvidia-drm-crtc.c:1424-1492 | which of the two pointers of a plane state change, also when a creation fails, with all counts exact |
| LutReferences.CrtcCheck | kernel-open/nvidia-drm/nvidia-drm-crtc.c:2677-2693 | the pointer of a CRTC state after a check, with all counts exact |
| LutReferences.Destroy | kernel-open/nvidia-drm/nvidia-drm-crtc.c:2174-2184 | the state is gone with all its references and no other state changes |
| LutReferences.SurfacesBalance | kernel-open/nvidia-drm/nvidia-drm-crtc.c:2085-2184 | over every run a surface is live with as many references as pointers, or has no pointer and has been released exactly once |
| LutReferences.LutSurfaces.PlaneAtomicCheck | kernel-open/nvidia-drm/nvidia-drm-crtc.c:1424-1492 | the whole effect of a plane check on its two surfaces, with null and error pointers from a failed creation |
| LutReferences.LutSurfaces.CrtcAtomicCheck | kernel-open/nvidia-drm/nvidia-drm-crtc.c:2677-2693 | the effect of a CRTC check on its surface, and when it fails |
| LutReferences.LutSurfaces.DuplicateState | kernel-open/nvidia-drm/nvidia-drm-crtc.c:2136-2151 | the duplicate hooks take one reference per pointer they copy |
| LutReferences.LutSurfaces.DestroyState | kernel-open/nvidia-drm/nvidia-drm-crtc.c:2174-2184 | the destroy hooks put every surface of the state once |
| ElfImage.RoundUpIsMultiple | nouveau/extract-firmware-nouveau.py:42-43 | round_up_to_base returns a multiple of the base, for every base |
| ElfImage.PaddedSize | nouveau/extract-firmware-nouveau.py:493-494 | the padded size is the least multiple of 4 not below the size |
| ElfImage.OffsetOfFindsName | nouveau/extract-firmware-nouveau.py:499-505 | offset_of finds every name of the table, at a C string equal to the name |
| ElfImage.SectionsAligned | nouveau/extract-firmware-nouveau.py:544-604 | string table and sections start on 4-byte boundaries, do not overlap, and end with the file |
| ElfReader.ReadHeld | nouveau/extract-firmware-nouveau.py:434-445 | a System V ABI reader recovers the sections of any file that holds them |
| ElfReader.ImageHolds | nouveau/extract-firmware-nouveau.py:434-517 | the image holds its header, string table and every section under its name |
| ElfReader.ReadBack | nouveau/extract-firmware-nouveau.py:434-604 | reading an image back gives the string table and exactly the named blobs, for any blobs that fit |
| ElfReader.ImageChecksum | nouveau/extract-firmware-nouveau.py:450-459 | the header of every section carries the checksum of its data in sh_info |
| FmcWriter.BuildTable | nouveau/extract-firmware-nouveau.py:485-490 | the loop builds the specified string table |
| FirmwareFile.OutFile.WritePadded | nouveau/extract-firmware-nouveau.py:509-517 | the bytes and then zeroes to a 4-byte boundary are written |
| FmcWriter.NameFound | nouveau/extract-firmware-nouveau.py:499-505 | offset_of never raises for a section of the image |
| FmcWriter.WriteHeaders | nouveau/extract-firmware-nouveau.py:557-584 | the headers are written in order, up to the first one that does not fit |
| FmcWriter.WriteBlobs | nouveau/extract-firmware-nouveau.py:586-604 | the five padded writes, with every alignment assertion of the script |
| FmcWriter.WriteFmc | nouveau/extract-firmware-nouveau.py:522-604 | fmc raises exactly when a number does not fit its 32-bit field, and otherwise writes the image of the four blobs |
| FmcWriter.FmcReadsBack | nouveau/extract-firmware-nouveau.py:522-604 | the file written by fmc reads back as the four named blobs |
| BooterWriter.SucceedsIffWellFormed | nouveau/extract-firmware-nouveau.py:280-349 | booter raises no exception exactly on well-formed inputs, with the number of signatures times their size in bytes |
| BooterWriter.BooterReadsBack | nouveau/extract-firmware-nouveau.py:299-349 | every offset in the two headers leads to the bytes written for it |
| BooterWriter.BooterTotalSize | nouveau/extract-firmware-nouveau.py:303-305 | the recorded total size is the file size rounded up to a 256-byte block |
| BooterWriter.WriteBooter | nouveau/extract-firmware-nouveau.py:264-349 | checks and writes in turn: the first exception, or the image |

## Left out

- NVKMS, RM, DRM core, dma_fence and kernel timer internals: they are nondeterministic environment steps.
- Liveness of fence timeouts: the timer is not re-armed in every case, so only the partition of a pass is stated.
- Jiffies and timeout clamping: times are plain numbers, and their wrap-around is not modelled.
- Semaphore-surface wait objects (`pending_waits`) and the ioctls that create contexts and fences.
- SemsurfWaiters.NoFenceLacksWaiter: states only runs in which samples are current, allocations and registrations do not fail and the context is not being destroyed, because a failed registration leaves the fence to its timeout.
- SemsurfContext.SemsurfFenceCtx.ForceCompletePending: is the loop over the pending fences, without the wait for `pending_waits` to empty.
- SemsurfContext.SemsurfFenceCtx.ProcessCompleted: is one call with nobody interfering between its locked section and its signals; interference is what `SemsurfProtocol` models, with `TakeCompleted` as the locked step.
- FlipOrder.DeliveredInCommitOrder: does not cover runs in which the wait before a commit times out with an event queued, where the order can be lost.
- The flip protocol is about one CRTC; commits that touch several are one commit for each.
- Conversions of in-fences for two CRTCs at the same time, which would share the next index: conversions follow each other.
- NvkmsTimers.TimerList.DrainArmed: is the drain loop alone; interference between its rounds is covered by `ExitIsBounded` and `ExitCompletes`, not by the loop.
- ModesetPermission.NvDrmDevice.FreeHeads: head bit masks are sets of heads, so the 32-bit width of the mask is not modelled.
- The answer of NVKMS to a revocation: the source ignores it, and so does the model.
- The final atomic commit of a revocation, and what disabling a connector does to the display.
- DisplaySemaphores.OneCallbackPerSemaphore: rests on NVKMS refusing to initialise a busy semaphore; NVKMS is not part of this model.
- OlutSurface.CreateOlut: takes a regamma LUT of 1024 entries and a VSS table with at least one entry; the two tables of the source and the WARN_ON checks of the hardware limits are not modelled.
- Input and tone-mapping LUTs, FP16 and FP32 arithmetic, and the CSC conversions.
- `fmt_ctm` blobs and the reset hooks of planes and CRTCs, which do not follow the reference discipline of the LUT surfaces.
- FmcWriter.WriteFmc: does not say what a file holds after an exception; CRC-32 is any function from bytes to 32 bits.
- BooterWriter.WriteBooter: does not say what a file holds after an exception.
- Parsing of the generated C arrays, gzip, downloads, symlinks and the WHENCE text of the script; the bootloader and scrubber images, which are the booter layout with fewer parts.
- Colour pipeline, mode and format conversion, GEM wrappers, encoders, framebuffers: thin wrappers that would only add easy members.
