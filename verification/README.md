# cuCascade: reservations, re-chunking, batches and repositories

A Dafny model of four parts of cuCascade that depend on one another, with proofs about every run
of them. `dafny verify dfyconfig.toml` checks the whole project.

1. **Counters and reservations.** `atomic_bounded_counter` and `atomic_peak_tracker` are modelled
   twice: as objects whose retry loops run against an arbitrary schedule of other writers
   (`AtomicCounters`), and as step machines of any number of threads (`CounterInterleaving`,
   `PeakInterleaving`). On top of them stands `fixed_size_host_memory_resource`: its state and
   atomic steps (`HostLedger`), the invariant that says what `_allocated_bytes` is a sum of
   (`HostAccounting`), block ownership (`HostBlocks`), whole calls (`HostCalls`), what users may
   rely on (`HostGuarantees`), the peak against the history (`HostHistory`), what each operation
   does for its caller and how reservations and handles balance over a run (`HostOutcomes`), and
   the class with its in-place updates, proved to make exactly those steps (`HostResource`).
   `reservation_aware_resource_adaptor` comes one public operation at a time (`GpuLedger`,
   `GpuAccounting`, `GpuOutcomes`, and the class in `GpuAdaptor`) and one atomic access at a time
   under any number of threads (`GpuSteps`, `GpuInterleaving`, `GpuFailures`). A thread left alone
   with an operation takes the steps to where the ledger says, and among others its steps do the
   same to what it can see (`GpuAlone`); the books of an operation are derived from those of its
   steps (`GpuAccounting.AloneBooks`).
2. **Copy loops.** `HostTables` has the three loops of `representation_converter.cpp` over one
   byte array in which host blocks lie; `HostConversions` has chains of conversions and the link to
   the allocator: blocks of different live handles never overlap, so conversions do not disturb one
   another.
3. **Batches.** `Batches` is the state machine of `data_batch` with its processing handles,
   `BatchInvariants`, `BatchHistory` and `BatchOutcomes` are theorems over all runs, `DataBatches`
   is the pair of classes.
4. **Repositories.** `Repositories` lets any number of threads scan, wait in and add to any number
   of repositories that share batches, one attempt per step; `RepositoryInvariants`,
   `RepositoryGuarantees` and `RepositoryOutcomes` are the theorems; `RepositorySearch` and
   `DataRepositories` are the undisturbed scan and the class.

Conventions. A `schedule`, a `scene` or an `upstream` argument stands for what other threads or the
upstream resource do; theorems hold for every value of it. `Exec`, `Run` and `PerformAll` fold a
list of operations, so a lemma about `Exec(.., ops)` is a statement about every run. Unsigned
subtraction is `SubWord`, which wraps at 2^64; that it never wraps in the host resource is a
theorem (`NoUnderflow`), that it can in the device adaptor is another (`StraddlingFreeUnderflows`).

Where the code and its comments differ, the model follows the code:

- The host resource is documented as managing its blocks in a free list, but `return_allocated_chunks`
  only corrects the counters: a returned block never becomes free (`ReturnedNeverReissued`).
- An exception of the upstream resource inside `expand_pool` bypasses the rollback branch, which
  expects an expansion that adds nothing. Charge, tracker and popped blocks of that call are lost
  for ever (`FailedAllocation`), and the peak is not updated (`PeakIsHighWaterIff`). Which calls
  those are is decided by their inputs (`AllocationEnds`).
- `grow_reservation_by` charges the whole growth even when part of it is already charged as
  overflow (`QuiescentZeroIff`).
- A device free that straddles the reservation boundary gives back the part inside the reservation,
  the host resource the part beyond it (`FreeExactIff`).
- A failed device allocation takes back from both counters exactly what it put there
  (`FailedAllocationsNetZero`). But while its bytes are on the stream counter, a free on the same
  stream can mistake its own buffer for overflow and give back bytes the reservation still owns:
  with nothing allocated and a reservation of 512 bytes, the total says 256 (`FailureCostsCharge`;
  `GpuInterleaving.GiveUpExactIff` says exactly when).
- A device free lowers the stream counter before the memory goes back upstream. In between the
  reservation can be filled again, so that the upstream resource holds twice what the total says
  (`RefillOvershoots`; `HeldUpstreamThroughout` bounds it).
- The constructor of the host resource takes any limit and capacity. With a limit above the capacity
  a request that fits in its reservation can be refused (`FittingAlwaysPassesIff`).
- `batch_state` documents `processing -> idle`; the last handle release goes to `task_created` when
  tasks are pending. `try_to_lock_for_in_transit` also accepts `task_created`, and
  `try_to_cancel_task` reports success whether or not the batch became idle.
- `try_to_release_in_transit` without a target goes to `idle` even when tasks are pending, and the
  task is then stranded (`DefaultReleaseStrandsTask`, `StateFollowsCountersIff`).

## Model

| member | source | states |
|---|---|---|
| `Prelude.AlignUpIsLeast` | src/memory/fixed_size_host_memory_resource.cpp:110-111 | rounding a request up to blocks yields the least multiple of the block size at or above it |
| `AtomicCounters.AtomicBoundedCounter.TryAdd` | include/utils/atomics.hpp:78-85 | under any interference: success adds exactly the amount to a content that had room at the commit; failure reports a content the cell really had during the call and that had no room |
| `AtomicCounters.AtomicBoundedCounter.TrySub` | include/utils/atomics.hpp:104-111 | the same downwards, against a lower bound |
| `AtomicCounters.AtomicBoundedCounter.AddBounded` | include/utils/atomics.hpp:87-97 | what is committed is what is reported, it never passes the bound at the commit, and it is the request cut down by every load of the call |
| `AtomicCounters.AtomicBoundedCounter.SubBounded` | include/utils/atomics.hpp:113-124 | the same downwards |
| `AtomicCounters.AtomicPeakTracker.UpdatePeak` | include/utils/atomics.hpp:36-40 | leaves the larger of its argument and the content the cell had at one instant of the call |
| `AtomicCounters.NarrowedIsTightest` | include/utils/atomics.hpp:90-94 | the amount a bounded addition ends up asking for fits the room of every load and equals the request or the room of one of them |
| `AtomicCounters.GrantsRoomAtCommitIff` | include/utils/atomics.hpp:90-94 | it is the smaller of request and room at the commit exactly when no earlier load saw less room |
| `AtomicCounters.NarrowedMirrored` | include/utils/atomics.hpp:113-124 | narrowing downwards is narrowing upwards with every sign reversed, so both statements hold of `sub_bounded` too |
| `CounterInterleaving.Linearizability` | include/utils/atomics.hpp:73-124 | in every run of any number of threads a returned operation took effect at one instant between call and return, with its own log entry there if it changed the cell: unconditional and all-or-nothing operations with exactly the outcome they have on the content of that instant, bounded ones with no more than the request and the room of that instant, and with the request or exactly the room of some content during the call |
| `CounterInterleaving.Replay` | include/utils/atomics.hpp:73-124 | conversely every change of the cell is such an effect of one operation, made during its call and its only one: in log order the operations lead from each content to the next |
| `CounterInterleaving.Conservation` | include/utils/atomics.hpp:73-124 | the cell always holds the initial value plus all committed changes |
| `CounterInterleaving.StaysWithinIff` | include/utils/atomics.hpp:73-124 | no instant of a run leaves the range the callers' bounds agree on exactly when every unconditional `add` and `sub` of the run fits into it when made |
| `CounterInterleaving.ProgressMeasure` | include/utils/atomics.hpp:81-84 | without spurious failures an operation overlapped by K commits of others makes at most K + 1 compare-and-swaps |
| `CounterInterleaving.CallStarts` | include/utils/atomics.hpp:73-117 | a call takes effect at once if it is unconditional, and otherwise starts from the content it finds and the whole amount |
| `CounterInterleaving.AttemptReturns` | include/utils/atomics.hpp:82-119 | an attempt returns unless it failed spuriously or another operation has committed since the load it relies on, and then it has reloaded |
| `CounterInterleaving.UndisturbedGrant` | include/utils/atomics.hpp:87-97 | with nobody else committing, a bounded operation grants min(request, room) |
| `CounterInterleaving.NarrowedGrantIsSticky` | include/utils/atomics.hpp:91-93 | a concrete run in which 2 is granted although 10 is asked for and 11 fits at the commit |
| `PeakInterleaving.PeakIsLargest` | include/utils/atomics.hpp:36-40 | in every interleaving of any number of threads the peak is the largest of its initial value and the arguments of all updates that have returned |
| `PeakInterleaving.AttemptReturns` | include/utils/atomics.hpp:36-40 | an attempt returns unless it failed spuriously or the peak has risen since it was loaded, and then it has reloaded |
| `HostAccounting.RunAccounted` | src/memory/fixed_size_host_memory_resource.cpp:103-322 | after every run of interleaved steps, whatever amounts interfered `reserve_upto` calls settle for: `_allocated_bytes` is the sum over registered reservations of max(size, used) plus charges without a registered reservation plus charges waiting for registration plus the double charges of growths; each tracker is the bytes drawn from its reservation; the counter is within the limits |
| `HostAccounting.NextKeeps` | src/memory/fixed_size_host_memory_resource.cpp:103-322 | every single step keeps that invariant, whatever state it starts from |
| `HostAccounting.DropCredit` | src/memory/fixed_size_host_memory_resource.cpp:287-307 | what a dropped handle gives back is covered by what is charged |
| `HostAccounting.BusyCovered` | src/memory/fixed_size_host_memory_resource.cpp:145-151 | what the rollback subtracts is still charged, however other threads moved the counter meanwhile |
| `HostGuarantees.CapacitySafety` | src/memory/fixed_size_host_memory_resource.cpp:103-167 | with the limit at or below the capacity: block size times live blocks <= counter <= capacity in every reachable state |
| `HostGuarantees.CapacityHoldsIff` | src/memory/fixed_size_host_memory_resource.cpp:136-137 | the counter respects the capacity in all runs exactly when the reservation limit does |
| `HostGuarantees.NoUnderflow` | src/memory/fixed_size_host_memory_resource.cpp:222-235 | after any run the amount a shrink, release, rollback or drop subtracts from the unsigned counter is at most the counter, so none wraps, and no tracker is negative |
| `HostGuarantees.ReservationGuarantee` | src/memory/fixed_size_host_memory_resource.cpp:115-138 | after any run, a request that fits in the rest of its reservation passes the capacity check, leaves the counter as it was, and gets all its blocks exactly if free blocks and the pools the upstream resource will add suffice |
| `HostGuarantees.FittingPassesIff` | src/memory/fixed_size_host_memory_resource.cpp:129-137 | a fitting request passes exactly while the counter is within the capacity, and never moves it |
| `HostGuarantees.FittingAlwaysPassesIff` | src/memory/fixed_size_host_memory_resource.cpp:129-137 | every fitting request passes in every reachable state exactly when the limit is at most the capacity or smaller than one block |
| `HostGuarantees.FailedAllocation` | src/memory/fixed_size_host_memory_resource.cpp:136-166 | an allocation that cannot be served restores counter, trackers, peak and free blocks exactly unless, judged by its inputs, it passes the checks at its head and the expansion that comes up short throws; then its charge stays; the rollback branch runs only with pools of zero blocks |
| `HostGuarantees.QuiescentCounter` | src/memory/fixed_size_host_memory_resource.cpp:269-307 | with all reservations destroyed and all handles dropped, in any order, the counter is the accumulated double charges plus the abandoned charges |
| `HostGuarantees.QuiescentZeroIff` | src/memory/fixed_size_host_memory_resource.cpp:211-260 | it is back at zero exactly when no growth of the run met an overflowing reservation and no expansion of the run threw |
| `HostGuarantees.SlackZeroIff` | src/memory/fixed_size_host_memory_resource.cpp:211-220 | a run has no double charge exactly when none of its growths hit an overflowing reservation |
| `HostGuarantees.NothingLostIff` | src/memory/fixed_size_host_memory_resource.cpp:142-152 | no charge of a run is abandoned exactly when none of its expansions threw |
| `HostOutcomes.ReserveMeans` | src/memory/fixed_size_host_memory_resource.cpp:188-198 | with n the least multiple of the block size holding the request: exactly if the counter plus n is within the limit, a new arena of n bytes with nothing drawn from it, n bytes charged, and no other change |
| `HostOutcomes.ReserveUpToMeans` | src/memory/fixed_size_host_memory_resource.cpp:200-209 | an arena of the smaller of n and what is left under the limit, charged with exactly that |
| `HostOutcomes.ChargeUpToMeans` | src/memory/fixed_size_host_memory_resource.cpp:313-320 | among other threads it is any part of that, never unrounded by the request |
| `HostOutcomes.GrowMeans` | src/memory/fixed_size_host_memory_resource.cpp:211-220 | exactly if n fits under the limit, the arena is n bytes larger and the counter n bytes higher; otherwise nothing changes |
| `HostOutcomes.GrowthFits` | src/memory/fixed_size_host_memory_resource.cpp:211-220 | after a successful growth exactly the requests fit in the reservation that fit in its old rest plus n |
| `HostOutcomes.ShrinkMeans` | src/memory/fixed_size_host_memory_resource.cpp:222-235 | the arena keeps exactly the bytes of the charges in force drawn from it, if that is less than its size, and the rest comes off the counter |
| `HostOutcomes.ReleaseMeans` | src/memory/fixed_size_host_memory_resource.cpp:269-285 | a registered arena is registered no more, whatever is in use, and the part of its size not in use comes off the counter |
| `HostOutcomes.AllocationServedIff` | src/memory/fixed_size_host_memory_resource.cpp:103-167 | a handle is returned exactly for a positive request against a registered arena or none, when what it adds beyond the reservation fits under the capacity and free blocks and new pools hold the rounded request |
| `HostOutcomes.AllocationMeans` | src/memory/fixed_size_host_memory_resource.cpp:103-167 | it has the rounded request in blocks, the arena has that much more in use, the counter rises by what that adds to the larger of size and use, and nothing else changes but free blocks, pools and the peak |
| `HostOutcomes.AllocationBlocks` | src/memory/fixed_size_host_memory_resource.cpp:142-159 | its blocks are the free ones, last in first out, then those of the new pools, last carved first |
| `HostOutcomes.DropMeans` | src/memory/fixed_size_host_memory_resource.cpp:287-307 | dropping a handle takes its bytes off the use of its arena, off the counter what that takes off the larger of size and use, and the handle, no other, out of the live ones |
| `HostOutcomes.RunBalances` | src/memory/fixed_size_host_memory_resource.cpp:103-322 | after every run: charges without arena = charges made - registrations; arenas = registrations - releases; handles = handed out - dropped; one allocation in progress exactly if one more began than ended |
| `HostOutcomes.GivenBack` | src/memory/fixed_size_host_memory_resource.cpp:188-307 | a run in which every charge was registered, every arena released, every allocation ended and every handle dropped, in any order, leaves no reservation and no handle, and a counter of the double charges plus the abandoned ones: zero exactly when no growth met an overflowing reservation and no expansion threw |
| `HostBlocks.RunOwned` | src/memory/fixed_size_host_memory_resource.cpp:142-162 | in every reachable state free, live, abandoned, in-progress and returned blocks together are exactly the blocks of the pools, with multiplicity, and pools are apart |
| `HostBlocks.LiveBlocksDisjoint` | src/memory/fixed_size_host_memory_resource.cpp:248-260 | any two blocks in live handles, of one handle or of two, are disjoint byte ranges |
| `HostBlocks.CarvedInsidePool` | src/memory/fixed_size_host_memory_resource.cpp:256-259 | every block lies inside an upstream pool |
| `HostBlocks.OnePlace` | src/memory/fixed_size_host_memory_resource.cpp:142-162 | an address turns up in at most one place, once, and then it is a block of some pool |
| `HostBlocks.BlockConservation` | src/memory/fixed_size_host_memory_resource.cpp:248-260 | free + live + abandoned + in progress + returned = pools * pool size, after every run |
| `HostBlocks.ReturnedNeverReissued` | src/memory/fixed_size_host_memory_resource.cpp:287-307 | a returned block is never free and never in a handle again, in any continuation |
| `HostCalls.TakeAllMeans` | src/memory/fixed_size_host_memory_resource.cpp:142-162 | the block loop ends with all blocks wanted, or rolled back, or abandoned, and what each ending does to counter, trackers, peak, handles and free list |
| `HostCalls.AllocationEnds` | src/memory/fixed_size_host_memory_resource.cpp:103-167 | each of the six endings of the call is equivalent to a condition on the state before it, the request and the answers of the upstream resource |
| `HostHistory.EveryHistorySound` | src/memory/fixed_size_host_memory_resource.cpp:103-322 | every sequential history of public calls, with any upstream exceptions, keeps the accounting and the ownership invariant |
| `HostHistory.PeakStep` | src/memory/fixed_size_host_memory_resource.cpp:161 | a call moves the peak to the larger of itself and the new counter value exactly unless it is an allocation whose inputs make an expansion throw and whose charge exceeds the peak |
| `HostHistory.PeakIsHighWaterIff` | src/memory/fixed_size_host_memory_resource.cpp:309-322 | in a sequential history the recorded peak is the largest value the counter had after any operation, throughout, exactly when the history has no such allocation |
| `HostHistory.PeakMissesAbandonedCharge` | src/memory/fixed_size_host_memory_resource.cpp:143-161 | a concrete call after which one block of 16 bytes is charged and the peak is zero |
| `HostResource.FixedSizeHostMemoryResource.constructor` | src/memory/fixed_size_host_memory_resource.cpp:35-54 | a new resource has nothing charged and its initial pools carved into free blocks |
| `HostResource.FixedSizeHostMemoryResource.AllocateMultipleBlocks` | src/memory/fixed_size_host_memory_resource.cpp:103-167 | the object's whole new state and the outcome are those of the specified call |
| `HostResource.FixedSizeHostMemoryResource.TakeBlocks` | src/memory/fixed_size_host_memory_resource.cpp:142-162 | the loop with pops, expansion and rollback on the object refines the specified loop |
| `HostResource.FixedSizeHostMemoryResource.ReturnAllocatedChunks` | src/memory/fixed_size_host_memory_resource.cpp:287-307 | dropping a handle on the object is the specified step |
| `HostResource.FixedSizeHostMemoryResource.Reserve` | src/memory/fixed_size_host_memory_resource.cpp:188-198 | null exactly when the rounded request does not fit under the limit, otherwise a new registered arena of that size |
| `HostResource.FixedSizeHostMemoryResource.ReserveUpTo` | src/memory/fixed_size_host_memory_resource.cpp:200-209 | a new registered arena of what could be had |
| `HostResource.FixedSizeHostMemoryResource.GrowReservationBy` | src/memory/fixed_size_host_memory_resource.cpp:211-220 | the specified growth on the object: true exactly if the rounded request fits under the limit, and then arena and counter are larger by it |
| `HostResource.FixedSizeHostMemoryResource.ShrinkReservationToFit` | src/memory/fixed_size_host_memory_resource.cpp:222-235 | the specified shrink on the object: the size falls to the tracked bytes |
| `HostResource.FixedSizeHostMemoryResource.ReleaseReservation` | src/memory/fixed_size_host_memory_resource.cpp:269-285 | the specified release on the object; it throws exactly for an arena not registered, and afterwards it is not registered |
| `GpuAccounting.DeviceAccounting` | src/memory/reservation_aware_resource_adaptor.cpp:332-521 | over every run with frees on any stream whose drift stays non-negative: outstanding bytes <= sum of max(size, used) plus the untracked rest <= total <= limits, the last gap but one being exactly the drift |
| `GpuAccounting.CoveredIff` | src/memory/reservation_aware_resource_adaptor.cpp:449-473 | the total covers what is owed throughout a run exactly when the accumulated drift is never negative |
| `GpuAccounting.AloneBooks` | src/memory/reservation_aware_resource_adaptor.cpp:332-521 | the drift of an operation is the sum of the drifts of its accesses: a thread left alone with it moves the books of the access-by-access machine by exactly that |
| `GpuAccounting.NextBooks` | src/memory/reservation_aware_resource_adaptor.cpp:332-521 | at any drift, negative or not, an operation that does not wrap changes total minus owed by exactly its drift |
| `GpuAccounting.StepWrapsIff` | src/memory/reservation_aware_resource_adaptor.cpp:449-521 | an operation wraps the unsigned total exactly when it takes back more than what is owed plus the drift, and then the drift is negative |
| `GpuAccounting.NeverWrapsIff` | src/memory/reservation_aware_resource_adaptor.cpp:449-521 | no operation of a run wraps exactly when each takes back at most what is owed plus the drift so far |
| `GpuAccounting.CoveredFromStartIff` | src/memory/reservation_aware_resource_adaptor.cpp:332-521 | from construction on, the total covers what is owed throughout exactly when the drift is never negative |
| `GpuAccounting.AccountingFromStart` | src/memory/reservation_aware_resource_adaptor.cpp:332-521 | and then it bounds what callers hold and stays within the limits |
| `GpuAccounting.NeverWrapsFromStartIff` | src/memory/reservation_aware_resource_adaptor.cpp:332-521 | the wrap criterion from construction on |
| `GpuAccounting.FreeCoveredIff` | src/memory/reservation_aware_resource_adaptor.cpp:462-469 | from exact books a free leaves the total covering what is owed exactly when the buffer does not straddle the reservation boundary or at least half of it lies beyond |
| `GpuAccounting.FreeExactIff` | src/memory/reservation_aware_resource_adaptor.cpp:462-469 | books stay exact exactly when it does not straddle or splits evenly |
| `GpuAccounting.CoveredFreesSuffice` | src/memory/reservation_aware_resource_adaptor.cpp:449-473 | runs whose frees all meet that condition when made keep the accounting theorem |
| `GpuAccounting.StraddlingFreeUnderflows` | src/memory/reservation_aware_resource_adaptor.cpp:465-472 | reserve 1024, allocate 1280, free, reset: nothing is held and the unsigned total is 2^64 - 768 |
| `GpuFailures.FailedAllocationsNetZero` | src/memory/reservation_aware_resource_adaptor.cpp:404-447 | in every interleaving and for any number of retries: a thread whose allocations have all failed has left every stream counter and the unsigned total exactly where the other threads put them |
| `GpuAlone.AloneFailureUndone` | src/memory/reservation_aware_resource_adaptor.cpp:404-447 | undisturbed, the charges, refunds and the rollback of a failed allocation end in the very state it began in |
| `GpuAlone.AloneIsLedger` | src/memory/reservation_aware_resource_adaptor.cpp:332-521 | every public operation of a thread left alone, access by access, ends where the ledger says |
| `GpuAlone.OthersUnseen` | src/memory/reservation_aware_resource_adaptor.cpp:332-521 | an access does to what its thread can see what it would do without the others, as long as none of them is inside an operation on the arena it resizes |
| `GpuFailures.FailureCostsCharge` | src/memory/reservation_aware_resource_adaptor.cpp:141-172 | a run of two threads in thirteen steps, the failing allocation's charge and refund among them, after which a reservation of 512 bytes stands, nothing is allocated, and the total is 256 |
| `GpuFailures.AnchoredAlways` | src/memory/reservation_aware_resource_adaptor.cpp:404-447 | in every reachable state the arenas of unfinished operations exist, which is what `FailedAllocationsNetZero` starts from |
| `GpuFailures.RefillOvershoots` | src/memory/reservation_aware_resource_adaptor.cpp:449-473 | a ten-step run of two threads with 512 bytes of capacity, all reserved, after which the upstream resource holds 1024 |
| `GpuInterleaving.InterleavedAccounting` | src/memory/reservation_aware_resource_adaptor.cpp:332-521 | in every interleaving of the atomic accesses without wrap: outstanding bytes are at most what is owed, flights included, and the total differs from it by exactly the accumulated drift |
| `GpuInterleaving.NextBooks` | src/memory/reservation_aware_resource_adaptor.cpp:332-521 | every single access that does not wrap moves the books by exactly its drift, at any drift |
| `GpuInterleaving.CoveredIff` | src/memory/reservation_aware_resource_adaptor.cpp:332-521 | the total covers what is owed after every access exactly when the drift is never negative |
| `GpuInterleaving.NeverWrapsIff` | src/memory/reservation_aware_resource_adaptor.cpp:430-521 | no subtraction of an interleaved run wraps exactly when each takes back at most what is owed plus the drift so far |
| `GpuInterleaving.NegativeDriftIff` | src/memory/reservation_aware_resource_adaptor.cpp:404-473 | a step takes the total further below what is owed exactly when it is a free of a buffer that straddles the boundary with less than half beyond it, or the end of a failed allocation whose bytes reach less far beyond the reservation than when it came in |
| `GpuInterleaving.NothingShortSuffices` | src/memory/reservation_aware_resource_adaptor.cpp:404-473 | an interleaved run without such a step keeps the total at or above what is owed after every access, and never wraps |
| `GpuInterleaving.HeldUpstreamThroughout` | src/memory/reservation_aware_resource_adaptor.cpp:449-473 | in every interleaving without wrap, what the upstream resource has handed out and not got back is at most the total less the drift plus the reserved part of buffers between stream counter and upstream |
| `GpuInterleaving.GiveUpExactIff` | src/memory/reservation_aware_resource_adaptor.cpp:423-426 | a failed allocation leaves the books alone exactly when its bytes reach as far beyond the reservation when it gives up as when it came in |
| `GpuAccounting.ReservedAccounting` | src/memory/reservation_aware_resource_adaptor.cpp:360-367 | `_total_reserved_bytes` is the sum of the live sizes plus everything ever shrunk away, so it is the sum exactly when no shrink took anything |
| `GpuOutcomes.TriesMean` | src/memory/reservation_aware_resource_adaptor.cpp:404-447 | the tries succeed exactly if the charge fits under the capacity and some try is delivered; the total moves only then, the peak sees the charge in any case |
| `GpuOutcomes.AllocationMeans` | src/memory/reservation_aware_resource_adaptor.cpp:374-428 | with n the least multiple of 256 holding the request: exactly if the policy allows, the part beyond the reservation fits under the capacity and some try is delivered, a buffer of n bytes, n bytes more on the stream counter if there is one and that part on the total; otherwise nothing but the peak changes |
| `GpuOutcomes.FreeMeans` | src/memory/reservation_aware_resource_adaptor.cpp:449-473 | the buffer goes, its n bytes come off the counter of the stream named, and off the total its share in the larger of size and use, or across the boundary the rest of n instead |
| `GpuOutcomes.AllocateAndFree` | src/memory/reservation_aware_resource_adaptor.cpp:374-473 | allocating and freeing on one stream restores everything but the peak unless the buffer lay across the boundary; then the total is off by the part beyond less the part within |
| `GpuOutcomes.ReserveMeans` | src/memory/reservation_aware_resource_adaptor.cpp:332-340 | exactly if the request fits under the limit, a new arena of that size, total and reserved bytes that much higher, and no other stream or buffer touched |
| `GpuOutcomes.ReserveUpToMeans` | src/memory/reservation_aware_resource_adaptor.cpp:342-348 | the same with the smaller of request and room, or among other threads any part of it |
| `GpuOutcomes.GrowMeans` | src/memory/reservation_aware_resource_adaptor.cpp:350-358 | exactly if it fits under the limit, the arena is that much larger, and a stream with the fail policy may allocate that much more |
| `GpuOutcomes.ShrinkMeans` | src/memory/reservation_aware_resource_adaptor.cpp:360-367 | the size falls to the bytes in use, if positive, and the difference comes off the total |
| `GpuOutcomes.AttachMeans` | src/memory/reservation_aware_resource_adaptor.cpp:303-326 | an untracked stream is put under the policy handed in, which decides what it may allocate; a tracked one keeps what it has and the arena handed over is destroyed |
| `GpuOutcomes.ResetMeans` | src/memory/reservation_aware_resource_adaptor.cpp:327-330 | the arena of a tracked stream is destroyed, and what the stream allocates next is charged in full |
| `GpuOutcomes.DestroyMeans` | src/memory/reservation_aware_resource_adaptor.cpp:506-521 | a destroyed arena is gone, with its unused part off the total and its size off the reserved bytes |
| `GpuOutcomes.PeakIsHighWater` | src/memory/reservation_aware_resource_adaptor.cpp:404-502 | after every run the recorded peak is the largest value a charge took the total to, failed tries included |
| `GpuOutcomes.RunBalances` | src/memory/reservation_aware_resource_adaptor.cpp:303-521 | after every run: arenas = made - destroyed, buffers = delivered - freed |
| `GpuOutcomes.GivenBack` | src/memory/reservation_aware_resource_adaptor.cpp:303-521 | a run without wrap in which every arena made was destroyed and every buffer freed, on whatever streams, leaves a total of exactly the accumulated drift |
| `GpuAdaptor.ReservationAwareResourceAdaptor.DoAllocate` | src/memory/reservation_aware_resource_adaptor.cpp:374-402 | allocation with policy, retries and rollback on the object is the specified operation; a buffer delivered is recorded with the least multiple of 256 holding the request |
| `GpuAdaptor.ReservationAwareResourceAdaptor.Reserve` | src/memory/reservation_aware_resource_adaptor.cpp:332-340 | null exactly when the request does not fit under the limit, otherwise a new arena of that size |
| `GpuAdaptor.ReservationAwareResourceAdaptor.ReserveUpTo` | src/memory/reservation_aware_resource_adaptor.cpp:342-348 | a new arena of what could be had |
| `GpuAdaptor.ReservationAwareResourceAdaptor.GrowReservationBy` | src/memory/reservation_aware_resource_adaptor.cpp:350-358 | the specified growth on the object |
| `GpuAdaptor.ReservationAwareResourceAdaptor.ShrinkReservationToFit` | src/memory/reservation_aware_resource_adaptor.cpp:360-367 | the specified shrink on the object, which leaves the reserved-bytes counter alone |
| `GpuAdaptor.ReservationAwareResourceAdaptor.ResetStreamReservation` | src/memory/reservation_aware_resource_adaptor.cpp:327-330 | the tracker of the stream goes and its arena is released with it |
| `GpuAdaptor.ReservationAwareResourceAdaptor.CheckReservationAndHandleOverflow` | src/memory/reservation_aware_resource_adaptor.cpp:141-172 | the stream counter moves by the padded size unless the policy refuses, and the part to charge upstream is the part beyond the reservation |
| `GpuAdaptor.ReservationAwareResourceAdaptor.TryUntilExhausted` | src/memory/reservation_aware_resource_adaptor.cpp:410-446 | the retry loop leaves total and peak as the specified sequence of tries does |
| `GpuAdaptor.ReservationAwareResourceAdaptor.DoAllocateManaged` | src/memory/reservation_aware_resource_adaptor.cpp:404-428 | a tracked allocation that fails restores the stream counter |
| `GpuAdaptor.ReservationAwareResourceAdaptor.DoDeallocate` | src/memory/reservation_aware_resource_adaptor.cpp:449-473 | the specified free on the object, straddling branch as written |
| `GpuAdaptor.ReservationAwareResourceAdaptor.DoReleaseReservation` | src/memory/reservation_aware_resource_adaptor.cpp:506-521 | the arena destructor gives back size minus max(0, used) when positive, as specified |
| `GpuAdaptor.ReservationAwareResourceAdaptor.AttachReservationToTracker` | src/memory/reservation_aware_resource_adaptor.cpp:303-326 | attaching is refused for a tracked stream, and then the arena handed over is released |
| `HostTables.GpuToHost` | src/data/representation_converter.cpp:168-205 | the blocks end up holding the packed bytes, nothing outside them changes, in exactly ceil(n / B) copies, each inside its block |
| `HostTables.HostToGpu` | src/data/representation_converter.cpp:210-257 | the flat buffer is the table's bytes with its metadata, memory is untouched, in exactly ceil(n / B) copies |
| `HostTables.HostToHost` | src/data/representation_converter.cpp:262-310 | the new table holds the old bytes and metadata, the old table is untouched, and there are at most floor(n / B1) + floor(n / B2) + 1 copies |
| `HostTables.IndexInBlocks` | src/data/representation_converter.cpp:186-198 | every byte index falls into one of the ceil(n / B) blocks |
| `HostTables.LocateDistinct` | src/data/representation_converter.cpp:186-198 | different bytes of a table have different addresses |
| `HostTables.ArriveChunk` | src/data/representation_converter.cpp:187-194 | a chunk written behind the bytes in place adds its bytes and overwrites none |
| `HostTables.StepIsSafe` | src/data/representation_converter.cpp:286-292 | each step of the re-chunking loop reads one source block that still holds the original bytes and writes one destination block, the two ranges apart and in bounds |
| `HostTables.OthersKeepContents` | src/data/representation_converter.cpp:290-292 | a write inside the blocks of one table leaves every table apart from it as it was |
| `HostConversions.SameBytesIff` | src/data/representation_converter.cpp:277-304 | two tables hold the same bytes exactly when byte k at (k / B2, k mod B2) equals byte k at (k / B1, k mod B1) for every k |
| `HostConversions.ConvertThrough` | src/data/representation_converter.cpp:168-310 | device to host, through any finite chain of hosts with any block sizes, and back: the packed bytes and metadata return |
| `HostConversions.HandlePlaced` | src/memory/fixed_size_host_memory_resource.cpp:142-162 | the blocks of a live handle are in bounds, apart and as many as a table of its size needs |
| `HostConversions.ConversionsIsolated` | src/data/representation_converter.cpp:176-194 | after any run of the allocator, a conversion into one live handle leaves the table in every other live handle as it was |
| `BatchInvariants.HandleSafety` | src/data/data_batch.cpp:26-34 | after any run: processing count = number of live handles through moves and move assignments; no release, move assignment or destructor throws; a live handle still finds the object it locked, in the space it asked for |
| `BatchInvariants.NextSound` | src/data/data_batch.cpp:103-275 | every operation keeps handle counts, "counted means processing" and data stability, and lets no handle exception out |
| `BatchInvariants.MoveKeeps` | include/data/data_batch.hpp:100-118 | moving a handle keeps every count |
| `BatchInvariants.TransitIsExclusive` | include/data/data_batch.hpp:397-405 | while a batch is in transit nobody holds it and the guard of `convert_to` and `set_data` lets the new data in |
| `BatchInvariants.InstallRefusedIffHeld` | src/data/data_batch.cpp:103-110 | the guard refuses exactly when some live handle would see its data change |
| `BatchHistory.TasksConserved` | src/data/data_batch.cpp:112-207 | pending tasks = successful creations - successful cancellations - successful locks, after every run |
| `BatchHistory.ProcessingExactIff` | src/data/data_batch.cpp:229-250 | state `processing` means a positive count throughout a run exactly when no release from transit targets `processing` |
| `BatchHistory.StateFollowsCountersIff` | src/data/data_batch.cpp:236-242 | outside transit the state says what the two counters say, throughout a run, exactly when every release from transit picks the state its task count calls for |
| `BatchHistory.FaithfulRunsLock` | src/data/data_batch.cpp:169-207 | in such a run a lock succeeds exactly with matching data, a pending task and no transit, and cancelling throws exactly without tasks while handles are out |
| `BatchHistory.DefaultReleaseStrandsTask` | src/data/data_batch.cpp:236-242 | create, lock in transit, release by default: idle with one task that cannot be locked |
| `BatchOutcomes.CreationMeans` | src/data/data_batch.cpp:112-136 | after any run a task is created exactly when the batch is not in transit, also while it is held; that adds one task and changes nothing else but idle to task_created |
| `BatchOutcomes.CancellationMeans` | src/data/data_batch.cpp:144-168 | after any run a task is cancelled exactly in task_created and processing with a task pending, without one it throws; the batch is idle after its last task exactly if no live handle holds it |
| `BatchOutcomes.LockMeans` | src/data/data_batch.cpp:169-207 | after any run the status reported is the first condition not met, in the order data, space, task, state; a lock turns one task into one handle on the data seen |
| `BatchOutcomes.TransitLockMeans` | src/data/data_batch.cpp:209-227 | after any run a lock for transit succeeds exactly if no live handle holds the batch and it is idle or has a pending task in task_created; it changes the state and a refusal nothing |
| `BatchOutcomes.TransitReleaseMeans` | src/data/data_batch.cpp:229-250 | after any run a release succeeds exactly in transit, with the state asked for or idle, and nothing else changes |
| `BatchOutcomes.InstallMeans` | src/data/data_batch.cpp:103-110 | after any run new data goes in exactly if no live handle holds the batch, and replaces only the data |
| `BatchOutcomes.LettingGoMeans` | src/data/data_batch.cpp:252-275 | after any run letting go of a batch leaves it processing while another handle holds it, and afterwards where its pending tasks call for |
| `BatchOutcomes.RunIsLedger` | src/data/data_batch.cpp:103-275 | if every release from transit is faithful, the state machine with four states and two counters refines a ledger of data, holders, tasks and one transit bit, after every run |
| `BatchOutcomes.FaithfulOutcomes` | src/data/data_batch.cpp:112-250 | in such a run: creating succeeds exactly outside transit, cancelling outside transit with a task, locking outside transit with a task and data in the space, locking for transit outside transit with no holder |
| `DataBatches.DataBatch.TryToCreateTask` | src/data/data_batch.cpp:112-136 | the object makes the specified transition and reports it |
| `DataBatches.DataBatch.TryToCancelTask` | src/data/data_batch.cpp:144-168 | the same, with the exception for a zero count |
| `DataBatches.DataBatch.TryToLockForProcessing` | src/data/data_batch.cpp:169-207 | the specified status in the specified order of checks, and a handle on this batch exactly on success |
| `DataBatches.DataBatch.TryToLockForInTransit` | src/data/data_batch.cpp:209-227 | the specified transition |
| `DataBatches.DataBatch.TryToReleaseInTransit` | src/data/data_batch.cpp:229-250 | the specified transition |
| `DataBatches.DataBatch.DecrementProcessingCount` | src/data/data_batch.cpp:252-275 | the specified transition, or an exception and no change |
| `DataBatches.DataBatch.SetData` | src/data/data_batch.cpp:103-110 | replaces the data, or throws and changes nothing |
| `DataBatches.DataBatch.ConvertTo` | include/data/data_batch.hpp:392-406 | the same, and unchanged when the converter throws |
| `DataBatches.ProcessingHandle.Release` | src/data/data_batch.cpp:28-34 | the batch is decremented once and forgotten; after an exception the handle still points at it |
| `DataBatches.ProcessingHandle.Moved` | include/data/data_batch.hpp:100-103 | the new handle takes over, the old one is null, the batch is untouched |
| `DataBatches.ProcessingHandle.Assign` | include/data/data_batch.hpp:108-118 | the batch held so far is released, the other taken over; self-assignment does nothing |
| `RepositoryGuarantees.PopIsFirstFit` | include/data/data_repository.hpp:142-154 | under interference: the batch returned is the first of the partition that accepted; every earlier one was refused with the value it had at a moment of this scan; only the batch returned changes and leaves, the rest keeps its order |
| `RepositoryGuarantees.MetIsHistory` | include/data/data_repository.hpp:142-154 | every value a scan acted on is the value that batch had in the run when the scan came to it, with the scan in progress ever since |
| `RepositoryGuarantees.FetchFindsFirst` | include/data/data_repository.hpp:212-230 | a search by id returns the first batch with the id after the transition asked for, and removes it unless a copy was wanted |
| `RepositoryGuarantees.GivesUpOnlyAfterRefusals` | include/data/data_repository.hpp:142-158 | a look without answer changes nothing; a pop waits only after every batch was refused at a moment of this scan and returns null only for an empty partition; a search returns null only if no batch has the id |
| `RepositoryGuarantees.PartitionConserved` | include/data/data_repository.hpp:78-91 | per partition and over every run, added = removed + remaining as multisets, through resizing |
| `RepositoryGuarantees.TransitExclusion` | src/data/data_repository.cpp:49-90 | between a successful in_transit pop or get and its release no request with a target, in any repository, gets that batch, no handle on it exists, and it can be neither given a task nor locked |
| `RepositoryGuarantees.WorldIsBatchRun` | include/data/data_repository.hpp:392-408 | what repositories do to batches is itself a run of batch operations, so all batch theorems apply |
| `RepositoryOutcomes.TaskPopServed` | include/data/data_repository.hpp:132-159 | in every interleaving: a pop into task_created takes the first batch it finds not in transit, waits exactly at the end of a nonempty partition, and then each batch was in transit at the moment of this scan that came to it; null exactly for an empty partition |
| `RepositoryOutcomes.TransitPopServed` | include/data/data_repository.hpp:132-159 | the same into in_transit when releases are faithful: it takes the first batch it finds neither held nor in transit, and waits only if each was one or the other |
| `RepositoryOutcomes.FetchServed` | include/data/data_repository.hpp:212-240 | a search at the batch with its id is served exactly if it names no target, or task_created outside transit, or in_transit for a batch nobody holds; it throws exactly for processing and otherwise waits |
| `RepositoryOutcomes.ScanStarts` | include/data/data_repository.hpp:132-141 | a request, and one that wakes up, scans the partition as it is then from its first batch; out of range exactly for a missing partition |
| `RepositoryInvariants.StepKeeps` | include/data/data_repository.hpp:132-241 | every step of any thread keeps: one scanner per repository, an unchanged partition during a scan, everything looked at passed over, every entry an existing batch |
| `RepositorySearch.UndisturbedScan` | include/data/data_repository.hpp:132-159 | without interference the step-by-step scan reaches the verdict of one function of the batch values |
| `RepositorySearch.PopTakesFirstFit` | include/data/data_repository.hpp:142-158 | a scan takes index k exactly if that batch accepts and all before it refuse, and waits exactly if there are batches and all refuse |
| `RepositorySearch.FetchTakesFirstMatch` | include/data/data_repository.hpp:212-240 | only the first batch with the id is tried: it is taken if it accepts, otherwise the search waits even if a later one would |
| `RepositoryOutcomes.PopForTask` | include/data/data_repository.hpp:142-158 | an uninterrupted pop into task_created takes the first batch not in transit, gives it one task more, and waits exactly if all are in transit |
| `RepositoryOutcomes.PopForTransit` | include/data/data_repository.hpp:142-158 | one into in_transit takes the first batch neither counted nor in transit and puts it in transit |
| `RepositoryOutcomes.PopForNothing` | include/data/data_repository.hpp:392-408 | none is ever popped into idle, and into processing every pop of a nonempty partition throws |
| `RepositoryOutcomes.FetchFindsNothing` | include/data/data_repository.hpp:190-230 | a search finds nothing exactly if no batch has the id, and throws exactly if one has and the target is processing |
| `DataRepositories.DataRepository.AddDataBatch` | include/data/data_repository.hpp:78-91 | appends to the partition, creates missing partitions empty, touches no other |
| `DataRepositories.DataRepository.PopDataBatch` | include/data/data_repository.hpp:132-159 | with batches changed arbitrarily between any two attempts and everything changed during waits: ends at the first scan that decides, with the verdict on the values it met, and that partition and those batch states; out of range exactly for a missing partition |
| `DataRepositories.DataRepository.PopDataBatchById` | include/data/data_repository.hpp:190-241 | the same for an id, with or without a transition |
| `DataRepositories.DataRepository.GetDataBatchById` | src/data/data_repository.cpp:28-91 | the same without removal |
| `DataRepositories.DataRepository.TryTransitionBatchForPop` | include/data/data_repository.hpp:392-408 | throws exactly for `processing`, never accepts `idle`, otherwise the batch's own transition |
| `DataRepositories.DataRepository.TotalSize` | include/data/data_repository.hpp:342-350 | the sum of the partition lengths |

## Left out

- CUDA, RMM, cuDF, NUMA and NVML calls: an upstream pool is a fresh range of addresses or an
  exception, a packed table is bytes and metadata, copies are synchronous.
- Machine width: only the subtractions that could wrap are modelled as wrapping. Requests close to
  2^63 or 2^64, where `align_up` or a signed conversion would overflow, and counts of tasks or
  handles near 2^64 are not.
- Address reuse: an arena is a fresh identity, while the code finds it by address.
- Reservations of another memory space handed to `allocate_multiple_blocks` (a type error there).
- Interleaved peak updates of the host resource: `PeakIsHighWaterIff` is about sequential
  histories; between a charge and its peak update other threads would see an older peak.
  `PeakInterleaving` covers the tracker by itself.
- The arena's own peak, `_number_of_allocations` and the per-thread tracker of the device adaptor.
- In the interleaved device model: the peak and `_total_reserved_bytes`, and steps that resize or
  destroy an arena while another thread is inside an operation on it, which is a data race on its
  plain size field.
- `increase_reservation_limit_policy`, downgrade thresholds and the configurator: floating point.
- A null result of the allocator inside a conversion: the model starts from blocks obtained.
- Converting a batch that has no data, and null batches in a repository: undefined in the code.
- Destroying a batch while a handle points at it, and batch move construction and assignment.
- `get_data_batch_by_id` of a unique-pointer repository, which only throws.
- Notifications and liveness: a waiting request may come back at any time or never; nothing is
  claimed about wake-ups. `memory_space` waiting and `notification_channel` are not modelled.
- `disk_access_limiter`, `exclusive_stream_pool`, the converter registry map and topology discovery:
  special cases or easy members.
