# Model of vHive's serving core

vHive runs serverless functions in microVMs and restores them from snapshots. This project models
the parts of it whose correctness depends on more than one function at a time, and proves what they
keep.

- **Record and replay of guest memory** (`Regions`, `WorkingSet`, `Traces`, `SnapshotStates`,
  `PageFaults`, `MemoryManagers`, `Lifecycle`, `Histories`, `Replay`, `SafeRuns`, `PageSizes`). The first
  activation of a VM records its page faults. When it ends, the trace is sorted and encoded into regions, and the pages are
  compacted into a file; later activations install that file at once and serve the remaining faults
  one by one. The main result is that this shows the guest the same memory as serving every fault
  lazily, over any number of activations at any addresses. The kernel is the set of present pages: it
  reports faults only on absent pages and refuses to install a present one. Facts of the environment
  are stated where they are used: page-aligned guests inside the address space, the first fault at
  the base, a memory file of whole pages that does not change.
- **Serving a function** (`ServeProtocol`, `ServeInstances`, `ServeOnces`, `Functions`,
  `ServeAlone`). A weighted
  semaphore, a counter, replaceable Onces and a lock make epochs of servedTh requests. It is
  modelled twice: as a transition system with any number of threads and one step per atomic action,
  and as a class that serves one request after the other; `ServeAlone` proves that a thread running
  alone through the first is the second, over any number of requests one after the other.
- **The CRI coordinator** (`Bags`, `Coordinators`, `CoordinatorRuns`, `CoordinatorVMs`). The locked methods are a
  class; the handlers that call them are a transition system over the same specification.
- **Network slots and the VM pool** (`Texts`, `Taps`, `TapManagers`, `TapRuns`, `VMPools`) and
  **starting a VM** with its deferred compensations (`StartVMs`).
- **Completion of invocations** in the time-series database (`Completions`, `Invocations`,
  `Timeseries`, `Servers`).
- **CPU topology** (`CpuTopology`).

Methods in the source's imperative form are proved against specification functions; the results
over runs and interleavings are lemmas about those functions. Outcomes of foreign calls are
parameters. A panic, a fatal log or a signal that ends the process is an outcome of its own.

Where the code does not do what one would expect, the model follows the code: the region loop
misplaces a trace that starts at the second page (`Regions.RegionsRightIff`; recording never makes
one); the replay counts in pages of 4096 bytes while the writer asks the system
(`PageSizes.PageSizeMatters`); a short read of the working set without an error is a success
(`Lifecycle.FetchedIff`, `Lifecycle.ShortReadSucceeds`), and a replay then shows the guest the buffer
(`PageFaults.ReplayShowsBuffer`); a call for an unknown VM leaves the memory manager locked
(`Lifecycle.LockLeftHeldIff`); a failed request that was to retire the instance blocks the function
(`Functions.BlockedIff`, `ServeProtocol.FailedRetirementEndsAdmission`); an event goes to the first
descriptor that it matches, which can leave an invocation uncompleted although all its events arrived (`Completions.FirstMatchCompletesIff`). The
protocol file utils/benchmarking/eventing/proto/timeseries.proto:96-98 describes the duration as the
greatest completion arrival minus the invocation's time; the code subtracts the time that each event
reports (`Invocations.DurationIsNotDocumented`), which is the same exactly when every completion event
reports the invocation's time (`Invocations.DocumentedIff`).

## Model

| member | source | states |
|---|---|---|
| Regions.RegionsRoundTrip | memory/manager/trace.go:144-155 | an ascending trace that does not start at the second page is read back unchanged from its regions |
| Regions.RegionsRightIff | memory/manager/trace.go:144-155 | the encoding of an ascending trace stands for that trace if and only if its lowest offset is not the second page (the loop starts as if page zero had been seen) |
| Regions.SecondPageAloneIsMisplaced | memory/manager/trace.go:144-155 | a concrete trace that is charged to a region at zero |
| Regions.RegionsAreMaximalRuns | memory/manager/trace.go:144-155 | the regions of an aligned ascending trace are maximal runs: inside the trace, covering it, not extensible at either end |
| Regions.MaximalRunsUnique | memory/manager/trace.go:144-155 | a set of offsets has at most one decomposition into maximal runs, so the regions are that one |
| Regions.LengthsAddUp | memory/manager/trace.go:144-155 | the lengths of all regions add up to the number of recorded pages |
| Traces.Trace.AppendRecord | memory/manager/trace.go:62-68 | the offset is added at the end of the trace and to the lookup table, nothing else changes |
| Traces.Trace.ContainsRecord | memory/manager/trace.go:128-132 | true exactly for the offsets in the lookup table |
| Traces.Trace.ProcessRecord | memory/manager/trace.go:136-158 | for any page size, sorts the trace in place, builds the regions by the loop and returns the compacted file, each equal to its specification; fails exactly when a region lies outside guest memory |
| Traces.Trace.WriteWorkingSetPagesToFile | memory/manager/trace.go:160-208 | the loop over the ascending region starts writes the compaction of the regions, with no gap between them, for any page size |
| Sorting.SortedKeys | memory/manager/trace.go:179-184 | collecting the keys and sorting them gives the one ascending listing of the region starts |
| Sorting.SortSorts | memory/manager/trace.go:139-142 | the sort is an ordered permutation of its input |
| Sorting.AscendingUnique | memory/manager/trace.go:139-142 | a set of offsets has only one ascending listing |
| WorkingSet.PagesIndex | memory/manager/trace.go:186-203 | page i of the compacted file is the guest-memory page at the i-th offset |
| WorkingSet.CompactWritesPages | memory/manager/trace.go:186-203 | compacting regions that lie inside guest memory succeeds and yields exactly the pages of the offsets they stand for, in ascending order |
| Traces.CompactedFile | memory/manager/trace.go:136-208 | for every trace that recording can make, the compaction of its regions succeeds and is the sequence of its pages, one page for each record |
| WorkingSet.InstallPutsPages | memory/manager/snapshot_state.go:450-466 | if the buffer holds the pages of the regions' offsets and the pages are absent, the loop copies region after region without ever leaving the buffer, and the pages appear at start + offset |
| WorkingSet.PutPagesView | memory/manager/snapshot_state.go:454-466 | after the copies an address is present exactly if it was before or is start + a listed offset, and what was present elsewhere is unchanged |
| Traces.ReplayInstallsRecordedPages | memory/manager/snapshot_state.go:440-469 | record and replay: for every recorded trace and every base, installing the compacted file leaves at base + offset exactly the guest-memory page at the offset for every recorded offset, and no other page |
| PageSizes.FilePosition | memory/manager/trace.go:186-203 | for any page size, the writer counts the file in pages of the machine's size |
| PageSizes.BufferPosition | memory/manager/snapshot_state.go:465 | for any page size, the place in the buffer is counted in pages of 4096 bytes |
| PageSizes.PageSizeMatters | memory/manager/snapshot_state.go:454-466 | for any page size p, every recording made with it is replayed as guest memory, whatever guest memory holds, if and only if p is 4096 or the recording has at most one region |
| SnapshotStates.SnapshotState.InstallWorkingSetPages | memory/manager/snapshot_state.go:440-469 | the loop over the regions performs the specified installation; false exactly when the buffer is too short for an index or the kernel refuses a copy |
| SnapshotStates.SnapshotState.ServeFault | memory/manager/snapshot_state.go:372-438 | a fault is served by the bulk installation on the first fault of a replay and by one page otherwise, with the record, the first-fault flag and the counters as specified |
| SnapshotStates.SnapshotState.SetupOnActivate | memory/manager/snapshot_state.go:116-127 | the flags, the first-fault Once and the two counters are reset, the lists are kept |
| SnapshotStates.SnapshotState.RecordMetrics | memory/manager/snapshot_state.go:161-175 | one entry is added to each list in metrics mode once the record is ready, and none otherwise |
| SnapshotStates.SnapshotState.ReadWorkingSet | memory/manager/snapshot_state.go:243-272 | the buffer gets the size of the trace in pages and what was read; a failed step leaves the earlier buffer, or the fresh one, in place |
| PageFaults.FaultServed | memory/manager/snapshot_state.go:372-438 | for every state that satisfies the invariant and every fault the kernel can report, the fault is served, the process does not end and the invariant is kept, so the lookup table stays the set of the trace, no page is installed twice and the counters stay exact |
| PageFaults.EveryFaultRecorded | memory/manager/snapshot_state.go:399-407 | in any state, a fault served while recording appends its offset to the trace and to the lookup table and counts nothing |
| PageFaults.RecordingStep | memory/manager/snapshot_state.go:399-413 | a recording fault adds an offset that was not in the trace, aligned and inside guest memory, and the first one adds offset zero |
| PageFaults.FirstFaultResolvedIff | memory/manager/snapshot_state.go:378-397 | the first fault of a replay is resolved by the bulk installation if and only if the trace is not empty |
| PageFaults.UnfetchedReplayDies | memory/manager/snapshot_state.go:440-469 | the bulk installation ends the process if and only if a non-empty record was never fetched (the buffer is always empty or as long as the file) |
| PageFaults.ReplayShowsBuffer | memory/manager/snapshot_state.go:440-469 | from any buffer as long as the file, also one that was read only in part, the guest sees at every recorded offset the page that the buffer has there, and no other page |
| MemoryManagers.MemoryManager.RegisterVM | memory/manager/manager.go:70-91 | a new VM gets a fresh state, a registered one is an error and changes nothing |
| MemoryManagers.MemoryManager.DeregisterVM | memory/manager/manager.go:94-116 | only a registered VM that is not active is removed |
| MemoryManagers.MemoryManager.ActivateInstance | memory/manager/manager.go:119-162 | the specified transition for an unknown, an active and an inactive VM, with the lock left held for an unknown one |
| MemoryManagers.MemoryManager.FetchState | memory/manager/manager.go:165-198 | the working set is fetched exactly when the record is ready and the mode is not lazy |
| MemoryManagers.MemoryManager.DeactivateInstance | memory/manager/manager.go:201-247 | the specified transition for a VM never activated, not active, or active, with the record processed once |
| MemoryManagers.MemoryManager.ServePageFault | memory/manager/snapshot_state.go:274-337 | a fault changes the state of its VM as specified and no other VM; the process ends exactly when serving fails |
| Lifecycle.StepKeeps | memory/manager/manager.go:119-247 | every call and every fault keeps: active implies ever activated, the trace is empty until the recording activation begins, lookup table and trace agree, regions and file are those of the trace, the lists have one entry per replay |
| Lifecycle.LifecycleKept | memory/manager/manager.go:119-247 | the same over every sequence of calls and faults |
| Lifecycle.RecordFrozen | memory/manager/manager.go:239-244 | once recorded, trace, regions and working-set file of a VM never change while it is registered, whatever is called |
| Lifecycle.RegionsOfRecordings | memory/manager/manager.go:239-241 | in every run, the regions of a recorded VM are the maximal runs of its trace and their lengths add up to the trace's |
| Lifecycle.RecordingEnds | memory/manager/manager.go:236-244 | completing the recording activation never ends the process and keeps the recorded offsets |
| Lifecycle.FetchSizeIsFileSize | memory/manager/snapshot_state.go:249-263 | at every fetch the buffer sized from the trace is exactly as long as the working-set file |
| Lifecycle.FullReadFetches | memory/manager/snapshot_state.go:249-263 | a successful fetch with a full read leaves the whole file in memory |
| Lifecycle.FetchedIff | memory/manager/snapshot_state.go:260-272 | in every run, after a fetch that reports success the file is in memory if and only if the part that the read did not return is zero |
| Lifecycle.ShortReadSucceeds | memory/manager/snapshot_state.go:260-263 | a run (register, activate, one fault, deactivate, fetch with a read of one byte) that reports success although the file is not in memory |
| Lifecycle.LockLeftHeldIff | memory/manager/manager.go:130-136 | a call leaves the manager's lock held if and only if it activates, fetches or deactivates an unknown VM |
| Lifecycle.LockedForEver | memory/manager/manager.go:130-136 | after that every call waits for ever and no VM is registered or removed |
| Histories.StateByHistory | memory/manager/manager.go:70-247 | in every run from a new manager: a VM is known exactly from a registration that succeeded to the deregistration that did, with the configuration it was registered with and the manager's metrics mode; it is active, ever activated, polling and recorded, and the lock is held, exactly as the calls and replies so far say |
| Histories.RepliesByHistory | memory/manager/manager.go:70-247 | the reply of every call after every run, if and only if: which calls succeed, which fail and which wait for ever follow from the earlier calls and their replies and from what the environment answers |
| Histories.FetchReportsIff | memory/manager/snapshot_state.go:243-272 | a fetch reports no error if and only if the monitor, the opening and the read have none and, when the read filled the buffer, the closing has none; a fetch that does not get to the read keeps the buffer, any other leaves what was read followed by zeros |
| Histories.OthersStay | memory/manager/manager.go:70-247 | a call or a fault changes no other VM |
| Histories.DeregisteredIsGone | memory/manager/manager.go:94-116 | a deregistration that succeeds makes the VM unknown, leaves the others, and the VM can be registered again from scratch |
| Replay.TouchServed | memory/manager/snapshot_state.go:372-438 | every touch of an absent page ends, after at most two faults, with the page present and never with the end of the process |
| Replay.CycleServed | memory/manager/manager.go:119-247 | one activation with its faults and its deactivation: the guest sees the memory file at every touched offset, the record becomes or stays what it must, and the statistics are the counts of the touched offsets |
| Replay.RunServed | memory/manager/manager.go:119-247 | any number of activations at any bases in either mode: the process never ends, every page seen is the one of the memory file, the trace is what the first activation touched, the unique and total statistics are closed forms of the touched offsets |
| Replay.ReusedAreRecorded | memory/manager/snapshot_state.go:161-175 | at the end of every lazy replay all lists have one entry per replay, total = unique + reused, and the reused pages are those whose offset is in the trace |
| Replay.ReplayAgreesWithLazy | memory/manager/snapshot_state.go:372-438 | on every run, record and replay and lazy serving show the guest the same pages and count the same unique faults |
| SafeRuns.CarefulStep | memory/manager/manager.go:70-247 | no call or fault ends the process, whatever fails in it, if no VM is activated without its working set and no running VM's fetch is short |
| SafeRuns.CarefulRun | memory/manager/manager.go:70-247 | over every such sequence of calls and faults the process never ends, and every guest that is served sees its memory file in every page it has |
| SafeRuns.FaultDiesIff | memory/manager/snapshot_state.go:274-337 | a fault of a VM that is served ends the process if and only if it is the first of a replay whose record is not empty and was never fetched |
| ServeProtocol.QuotaKept | functions.go:241-320 | in every interleaving of requests, adders and removers, failed requests included: the counter is the quota minus the decrements of the epoch, the permits held are those decrements plus the pending ones, zero has been drawn exactly when the epoch is used up, and every permit ever taken is accounted for |
| ServeProtocol.QuotaStep | functions.go:241-320 | every atomic action keeps this |
| ServeProtocol.OneDrawsZero | functions.go:246-247 | at most one request of an epoch is the one that drew zero |
| ServeProtocol.RetirementIsExclusive | functions.go:310-320 | from the draw of zero to the release all permits are held, no decrement is pending and nobody can take a permit, so the plain reset races with no decrement and the release returns held permits only |
| ServeProtocol.FailedRetirementEndsAdmission | functions.go:278-294 | in every interleaving, once a request that drew zero has failed, no later action of any run takes a permit |
| ServeInstances.InstancesCounted | functions.go:251-265 | with requests only: every replaced Once has run, starts minus retirements is 0 or 1, and starts are at most 1 + admitted / servedTh |
| ServeInstances.RetiresAStartedInstance | functions.go:398-411 | the request that replaces the Once finds it done: it retires an instance that was started |
| ServeInstances.SnapshotDiscipline | functions.go:299-306 | in every interleaving a ready snapshot is one of the current VM, and all fresh starts use different numbers |
| ServeInstances.ReadyVMNeverChanges | functions.go:356-366 | once the snapshot is ready, the current VM is the same at every later point and no fresh VM is started |
| ServeOnces.SnapshotBodyRunsAlone | functions.go:299-306 | in every interleaving at most one thread is in the body of the snapshot Once, one is exactly while the Once runs, and no request that would snapshot gets past the Once before that body is over and the snapshot is ready |
| ServeOnces.SnapshotTakenOnce | functions.go:299-306 | no run has two actions that take the snapshot |
| ServeOnces.InstanceBodiesRunAlone | functions.go:251-265 | in every interleaving of requests, adders and removers no two threads are in the body of the same Once, and instances are started once for every Once whose body has started one |
| ServeOnces.ForwardedAfterTheBody | functions.go:251-267 | only a request is forwarded, and only when the Once that it read is done; the Once of a thread in its body runs; an adder replaces no Once |
| Functions.VMIDInjective | functions.go:518-520 | names of VMs are different for different functions or different numbers |
| Functions.Function.constructor | functions.go:186-221 | a new function has all permits free and no VM |
| Functions.Function.AddInstance | functions.go:343-381 | loads the snapshot when it is ready and starts a fresh VM under the next name otherwise; panics when the orchestrator reports an error |
| Functions.Function.LoadInstance | functions.go:482-505 | loading and resuming, in this order, or a panic |
| Functions.Function.CreateInstanceSnapshot | functions.go:440-462 | pausing, snapshotting and resuming, in this order, or a panic |
| Functions.Function.RemoveInstance | functions.go:398-427 | the Once is replaced and the VM offloaded when snapshots are taken, stopped otherwise |
| Functions.Function.Serve | functions.go:231-323 | the whole new state and the reply of a request on its own, for each outcome of the forwarded call |
| Functions.ServeReachesRunningVM | functions.go:231-323 | served one after the other, a request that is not blocked is forwarded to a running VM, no request panics, and the invariant is kept |
| Functions.RemovePanicsIff | functions.go:398-427 | a removal panics if and only if there is no running instance |
| Functions.OthersUntouched | functions.go:518-520 | a request leaves the VMs of all other functions as they are |
| Functions.InstancePerQuota | functions.go:231-323 | as long as every servedTh-th request succeeds, n requests start exactly n / servedTh instances, rounded up, request i is a cold start exactly when i is a multiple of servedTh, and with snapshots all starts are one VM |
| Functions.FailedRetirementExhausts | functions.go:278-294 | when a request that is to retire the instance fails, all permits stay taken |
| Functions.BlockedIff | functions.go:241-244 | a request waits for good if and only if an earlier one that was to retire the instance failed |
| Functions.PinnedKeepsInstance | functions.go:241-247 | a pinned function starts one instance and answers every request with it |
| ServeAlone.AloneIsSerial | functions.go:231-323 | a request that runs alone through the interleaved protocol waits exactly when the serial one is blocked and otherwise ends in a state that agrees with the serial one |
| ServeAlone.SerialRun | functions.go:231-323 | from the initial state, any number of requests one after the other, failed and blocked ones included, have a run of the interleaved protocol in which each ends as the serial function answers it and the final states agree |
| Coordinators.VmIDsDistinct | cri/coordinator.go:153-154 | different instance numbers give different vmIDs |
| Coordinators.Coordinator.GetIdleInstance | cri/coordinator.go:70-87 | the oldest idle instance of the image, removed from its list; nil when there is none, with an empty list made |
| Coordinators.Coordinator.SetIdleInstance | cri/coordinator.go:89-99 | the instance is put at the end of the list of its own image |
| Coordinators.Coordinator.InsertActive | cri/coordinator.go:138-151 | inserts, or reports an error and changes nothing when the container has an entry |
| Coordinators.Coordinator.TakeActive | cri/coordinator.go:110-119 | the entry is read and deleted together |
| Coordinators.Coordinator.IsActive | cri/coordinator.go:130-136 | whether the container has an entry |
| Coordinators.Coordinator.NewInstance | cri/coordinator.go:153-180 | an instance under the next number |
| Coordinators.Coordinator.StartVM | cri/coordinator.go:101-108 | the oldest idle instance is loaded when snapshots are taken and there is one, otherwise a fresh one is started |
| Coordinators.Coordinator.CreateSnapshot | cri/coordinator.go:204-229 | the Once is done afterwards; an error is reported only by the call that ran it |
| Coordinators.Coordinator.StopVM | cri/coordinator.go:110-127 | the container's instance becomes idle exactly when snapshots are taken and its own did not fail; an unknown container changes nothing |
| CoordinatorRuns.ConservedStep | cri/coordinator.go:70-182 | every atomic step keeps each given number in exactly one place |
| CoordinatorRuns.Ownership | cri/coordinator.go:70-182 | in every interleaving of creations and removals no two of: handlers, active entries, positions of idle lists have the same instance |
| CoordinatorRuns.Conservation | cri/coordinator.go:70-182 | the numbers given are those in flight, active, idle, stopped and dropped on an error, and no popped instance is ever discarded |
| CoordinatorRuns.SnapshottedOnce | cri/coordinator.go:204-248 | every idle instance is in the list of its own image and was paused and snapshotted exactly once and successfully, no instance more than once, and without snapshots nothing is idle |
| CoordinatorRuns.ReuseIsFifo | cri/coordinator.go:70-99 | per image, instances are popped in the order in which they were set idle |
| CoordinatorRuns.NobodyWaits | cri/coordinator.go:204-229 | only snapshotted instances are loaded, and no handler ever waits for a snapshot Once |
| CoordinatorVMs.CreationGetsItsImage | cri/coordinator.go:101-108 | in every interleaving, whatever instance a creation has, fresh or idle before, is of the image that it was asked for |
| CoordinatorVMs.ActiveHasTheRequestedImage | cri/coordinator.go:110-151 | a container is active exactly from its insertion to the removal that takes it, with an instance of the image that the creation which inserted it was asked for |
| CoordinatorVMs.StatusesFit | cri/coordinator.go:153-248 | by the calls of the orchestrator so far: an active container has a running VM of the image for which its number was given, an idle instance was offloaded and is in the list of that image, what is resumed was loaded, what is snapshotted was paused |
| CoordinatorVMs.CountedAsHappened | cri/coordinator.go:153-260 | an instance is stopped, given up, paused and snapshotted exactly as often as such an action happened in the run |
| Taps.PrimaryIsQuad | taps/tapManager.go:52-54 | the primary address of every slot is a dotted address of four numbers below 256 |
| Taps.PrimaryInjective | taps/tapManager.go:52-54 | different slots have different primary addresses |
| Taps.PrimaryIsNoGateway | taps/tapManager.go:42-54 | no slot has the address of a gateway |
| Taps.MacInjective | taps/tapManager.go:270-271 | different slots have different MAC addresses |
| Taps.MacReadsBack | taps/tapManager.go:270-273 | the MAC of every slot reads back as the six bytes 02:FC:00:00 and the two bytes of the slot's index |
| TapManagers.TapManager.constructor | taps/tapManager.go:57-75 | no taps and all counts zero |
| TapManagers.TapManager.AddTap | taps/tapManager.go:162-192 | the loop over the bridges does what its specification says, in every error case; what that is, in numbers, is stated by the members below |
| TapManagers.ClaimValid | taps/tapManager.go:173-189 | a slot is given at its bridge's former count and below the limit, counts never go down, and none is given if and only if all bridges are full |
| TapManagers.AddTapStable | taps/tapManager.go:162-192 | interfaces once made never change, and a known name takes no slot |
| TapManagers.AddTapKeeps | taps/tapManager.go:162-192 | all interfaces stand on given slots and no two names share a MAC or a primary address |
| TapManagers.NoSpaceIff | taps/tapManager.go:190-191 | without errors of the links a new name is refused if and only if every bridge is full |
| TapManagers.NewTapTakesFirstFree | taps/tapManager.go:172-189 | a new name takes the place at the count of the first bridge that is not full; every bridge tried counts one more; the interface has the addresses of that place and is kept when only the packet filter fails |
| TapManagers.NewTapRefused | taps/tapManager.go:190-191 | with both bridges full a new name is refused, nothing is made and both bridges count one more |
| TapManagers.InterfacesAddressed | taps/tapManager.go:270-296 | every interface that is kept has, for some bridge b below 2 and place i below 1000, the bridge's name, the tap's name, the subnet /10, gateway 190+b.128.0.1, primary address 190+b.128 followed by the two bytes of i+2, and the MAC whose last bytes are those of 1000b+i |
| TapManagers.ReturnedAddressed | taps/tapManager.go:162-192 | the same for every interface that AddTap returns |
| TapRuns.SlotsGivenOnce | taps/tapManager.go:172-191 | in every interleaving of calls for new names: no slot is given twice, all exist, at most 2000 are given, and a call fails only when all 2000 have been given |
| VMPools.VMPool.Allocate | misc/vm_pool.go:40-62 | a new VM gets the interface of its tap name; an error leaves the map alone, a VM in the map panics |
| VMPools.VMPool.Free | misc/vm_pool.go:65-84 | the entry is removed exactly when the VM is unknown or its tap can be removed, else an error leaves it; the tap's interface is kept |
| VMPools.VMPool.RecreateTap | misc/vm_pool.go:87-110 | the map stays as it is; an unknown VM panics |
| VMPools.VMPool.GetVM | misc/vm_pool.go:124-132 | the entry if there is one |
| VMPools.InterfacesStay | misc/vm_pool.go:40-110 | over every run of allocations, frees and tap recreations, interfaces once made stay |
| VMPools.StableAddresses | misc/vm_pool.go:40-110 | a VM that is in the pool at two points of a run has the same interface at both, whatever happened in between |
| VMPools.ReallocationIsFree | misc/vm_pool.go:40-62 | allocating a freed VM again consumes no slot and, if the link can be made, restores the same entry |
| VMPools.LiveVMsApart | misc/vm_pool.go:40-110 | VMs in the pool at the same time have different MAC and primary addresses |
| VMPools.InPoolIff | misc/vm_pool.go:40-84 | over every run a VM is in the pool if and only if the last of its allocations and frees that reported no error was an allocation |
| VMPools.OthersLeaveIt | misc/vm_pool.go:40-110 | operations on other VMs leave a VM's presence and entry as they are |
| VMPools.RepliesIff | misc/vm_pool.go:40-110 | when each operation reports no error: an allocation with the link up if the name had a tap, or if the packet filter and a free place are there; a free if the VM is unknown or its tap can be removed; a recreation if tap and link can be |
| VMPools.FreedCanBeAllocated | misc/vm_pool.go:65-84 | a VM whose free reported no error can be allocated again without a panic |
| StartVMs.Orchestrator.StartVM | ctriface/iface.go:73-225 | whichever step fails first, exactly the deferred actions of the steps before it run, the last registered first, each in a state where it can, and what exists is what existed before; on success nothing is undone |
| StartVMs.EveryFailureCompensated | ctriface/iface.go:73-225 | for every step: from what exists when it is reached, the actions deferred until then can all run, the last registered first (the task killed before it is deleted, the container deleted after its task), and restore what existed before |
| StartVMs.OrderMattersIff | ctriface/iface.go:73-225 | the order of the deferred actions matters exactly once a task exists: before, registration order restores the start as well, from then on the container's deletion is refused |
| StartVMs.Orchestrator.RunDeferred | ctriface/iface.go:88-95 | a stack that compensates is run in reverse order and restores the start |
| Completions.FirstMatch | utils/benchmarking/eventing/timeseriesdb/main.go:138-156 | the first awaited descriptor all of whose entries match, or none if no descriptor matches |
| Completions.FirstMatchCompletes | utils/benchmarking/eventing/timeseriesdb/main.go:138-156 | if of two descriptors that one event can match the more specific comes first, giving every event to its first match completes every invocation whose events suffice |
| Completions.FirstMatchCompletesIff | utils/benchmarking/eventing/timeseriesdb/main.go:138-156 | this order of the descriptors is also necessary: for any other template there are events that include a different matching one for each descriptor and leave something awaited |
| Invocations.TemplateConserved | utils/benchmarking/eventing/timeseriesdb/main.go:175-227 | awaited descriptors plus those taken by completion events are the template as multisets, and the completion records are as many as the template's length minus the awaited ones |
| Invocations.CompletedIff | utils/benchmarking/eventing/timeseriesdb/main.go:189-192 | an invocation is completed if and only if its template is not empty and nothing is awaited |
| Invocations.CompletedForGood | utils/benchmarking/eventing/timeseriesdb/main.go:189-192 | a completed invocation stays completed with the same duration |
| Invocations.AlwaysTracked | utils/benchmarking/eventing/timeseriesdb/main.go:175-227 | after every sequence of events, the awaited descriptors are a part of the template in its order, and each other descriptor has a completion record of its own that its matchers match |
| Invocations.CompletedMeansMatched | utils/benchmarking/eventing/timeseriesdb/main.go:189-192 | a completed invocation has a bijection from the template's descriptors to its completion records such that every record matches its descriptor |
| Invocations.CompletedIffCompletable | utils/benchmarking/eventing/timeseriesdb/main.go:138-193 | with specific descriptors first, an invocation is completed if and only if the events that arrived include a different matching one for each descriptor |
| Invocations.DurationIsLongest | utils/benchmarking/eventing/timeseriesdb/main.go:184-187 | the duration is the maximum over the completion events of arrival minus the time of invocation that the event reports, and unset if there is none |
| Invocations.DocumentedIff | utils/benchmarking/eventing/timeseriesdb/main.go:184-187 | for arrivals in order, after every event the duration is the documented one, last completion arrival minus the invocation's own time, if and only if every completion event reports that time |
| Invocations.DurationIsNotDocumented | utils/benchmarking/eventing/timeseriesdb/main.go:184-187 | a completed invocation of two events whose duration is 21 where the documentation says 11 |
| Invocations.DurationFromGreatestArrival | utils/benchmarking/eventing/timeseriesdb/main.go:184-187 | in any order of arrival, if all events report the invocation's time, the duration is the greatest completion arrival minus that time |
| Invocations.EventsRecorded | utils/benchmarking/eventing/timeseriesdb/main.go:220-224 | every event is recorded, in the order of arrival |
| Invocations.InvocationsApart | utils/benchmarking/eventing/timeseriesdb/main.go:158-173 | every invocation is what its own events alone make of it, under its own identifier and with the time that its first event reports, however events of other invocations are interleaved, and the template never changes |
| Timeseries.Invocation.constructor | utils/benchmarking/eventing/timeseriesdb/main.go:158-173 | the template's descriptors are copied into an array of the invocation's own |
| Timeseries.Invocation.CheckCompletion | utils/benchmarking/eventing/timeseriesdb/main.go:138-156 | the nested loops find the first match |
| Timeseries.Invocation.OnCompletionEvent | utils/benchmarking/eventing/timeseriesdb/main.go:175-193 | the descriptor is removed by moving the later ones forward in the invocation's own array, and duration and status change as specified |
| Timeseries.Invocation.RegisterEvent | utils/benchmarking/eventing/timeseriesdb/main.go:215-224 | checking, completing and recording together |
| Timeseries.Workflow.RegisterInvocation | utils/benchmarking/eventing/timeseriesdb/main.go:158-173 | a new invocation shares its descriptors with nobody, and template and other invocations stay as they are |
| Timeseries.Workflow.RegisterEvent | utils/benchmarking/eventing/timeseriesdb/main.go:195-227 | only the event's invocation changes: the template and every other invocation's list are the same |
| Servers.Server.StartExperiment | utils/benchmarking/eventing/timeseriesdb/main.go:61-75 | the workflows are those of the definitions, of equal identifiers the last, without invocations |
| Servers.StartedIff | utils/benchmarking/eventing/timeseriesdb/main.go:61-75 | a workflow is known if and only if a definition has its identifier |
| Servers.StartedIsLast | utils/benchmarking/eventing/timeseriesdb/main.go:61-75 | it has the descriptors of the last definition with its identifier and no invocation |
| Servers.Server.RegisterEvent | utils/benchmarking/eventing/timeseriesdb/main.go:195-227 | an unknown workflow is fatal, otherwise only the event's workflow changes |
| CpuTopology.GetCPUInfo | profile/profiler.go:343-391 | reading the lines with its three loops gives the specified lists and map, or the specified error or panic |
| CpuTopology.ReadOutcome | profile/profiler.go:356-385 | by the lines alone: the reading succeeds if and only if every line is good, fails if and only if the first bad line's number cannot be read, and panics if and only if it is a core line without a place |
| CpuTopology.ReadLists | profile/profiler.go:356-385 | every core's list has exactly the processors of its lines, in order, each line's processor and socket being those of the last processor and physical-id lines before it, and the map has the last place of every processor |
| CpuTopology.ReadRoom | profile/profiler.go:367-380 | there is a list for every socket up to the greatest physical-id number and, on a socket, one for every core up to the greatest listed there |
| CpuTopology.LastPlaceIsLast | profile/profiler.go:382 | the place that the map has for a processor is that of its last core line |
| CpuTopology.InverseIff | profile/profiler.go:356-385 | the nested lists and the map are inverse to each other if and only if the core lines are of different processors |
| CpuTopology.Info.AllCPUs | profile/profiler.go:461-471 | the loops give the sort of all lists |
| CpuTopology.AllCPUsIff | profile/profiler.go:461-476 | the sorted list of all processors has the map's keys as its members, and its length is their number if and only if the core lines are of different processors; then it is strictly ascending |
| CpuTopology.Info.SocketCPUs | profile/profiler.go:441-453 | the loop gives the sort of the socket's lists, and an error for an index out of range |
| CpuTopology.SocketCPUsPartition | profile/profiler.go:441-453 | the processors of a socket are exactly those that the map places there, so the sockets partition the processors |
| CpuTopology.SiblingShares | profile/profiler.go:421-438 | a sibling is the first other processor on the same core, there is none exactly when the processor is alone, and on a core with two the sibling of the sibling is the processor |

## Left out

- Foreign and kernel calls (mapping memory, event polling, socket passing, bridges and packet filters,
  containerd, Firecracker, gRPC): each is a result that the caller of the model chooses.
- Liveness and freedom from deadlock in the interleaved models: nested read locks, waiting for a
  writer and fairness are not modelled; that requests wait for good is stated for the permits only.
- The goroutine that stops a VM: in the serial function the stop takes effect at the removal, and the
  interleaved protocol counts a retirement when the Once is replaced.
- Which VM a forwarded request reaches under concurrency: a delayed request may come after the
  retirement. It is stated for serial runs.
- FuncPool: its map from identifiers to functions, the rule that pins a function and the random choice
  of servedTh; servedTh is any number, at least 1 where a quota is used.
- The orchestrator behind a function: a call succeeds exactly when the VM is in a state that allows it
  (started once, paused while running, snapshotted while paused, loaded while offloaded with a
  snapshot); errors that come from elsewhere are not modelled, since the function panics on them.
- CoordinatorVMs.StatusesFit: an error of the orchestrator's Offload is only logged by the code, so an
  instance counts as offloaded once the call was made.
- EndExperiment of the time-series database, which lists the invocations' descriptions.
- MemoryManagers.MemoryManager.ServePageFault: one fault at a time; the polling loop and its events are
  not modelled.
- TapRuns.SlotsGivenOnce: concurrent calls have different, new names; calls with the same name are in
  the sequential manager only.
- TapManagers.TapManager.AddTap: a slot whose link cannot be made is not given back, as in the code;
  the single netlink calls are one result.
- StartVMs.Orchestrator.StartVM: the undo calls are assumed to succeed where containerd allows them; the
  second of two kills finds the task dead, which changes nothing (the code logs the error); the tap, the
  pulled image, the log writer and the directory of a failed start stay behind, as in the code, and only the VM being
  started is modelled besides the pool: nothing of a VM outside the pool exists but its tap.
- Timeseries.Workflow.RegisterEvent: events are handled one at a time, and a descriptor is a value, since
  the code never changes one.
- CpuTopology.GetCPUInfo: lines are given by their kind and number instead of their text, and processor
  numbers are not negative.
- SnapshotStates.SnapshotState.InstallWorkingSetPages: a region that starts inside the buffer and ends
  past it ends the process here, while the code checks the first byte only; with pages of 4096 bytes no
  run gets there, since the buffer is empty or as long as the file (`PageFaults.ReplayShowsBuffer`).
- Functions.Function.Serve: an error of the forwarded call that carries no gRPC status panics in the
  code; the outcomes here are success and an error with a status.
- Functions.RemovePanicsIff: that the orchestrator refuses to offload a VM twice is an assumption about
  the orchestrator.
- Integer widths: counters, times and identifiers are unbounded; addresses wrap at 64 bits where the
  installation adds them.
- Latencies, the CSV writers and readers, plotting, logging and the profiler's sampling.
- The search through the metric tree in profile/plotter.go, which would add only a lookup.
- The CRI service's pass-through calls and its map of pod configurations.
