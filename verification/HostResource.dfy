/** `fixed_size_host_memory_resource` as an object: each method does what the C++ method does to the
    same fields, and is proved to take the abstract state `View()` exactly where the step
    functions of HostLedger and HostCalls say. */
module HostResource {
  import opened Prelude
  import opened AtomicCounters
  import opened HostLedger
  import opened HostCalls

  /** `chunked_reserved_area`: only its `_size` changes, and only the resource changes it. */
  class ChunkedReservedArea {
    var size: int

    constructor (bytes: int)
      ensures size == bytes
    {
      size := bytes;
    }
  }

  /** As long as the upstream resource answers with addresses, they are fresh pools. */
  ghost predicate FreshAnswers(cfg: Config, pools: seq<Addr>, upstream: seq<Option<Addr>>)
    decreases |upstream|
  {
    upstream == [] || upstream[0].None? ||
    (FreshPool(cfg, pools, upstream[0].value) && FreshAnswers(cfg, pools + [upstream[0].value], upstream[1..]))
  }

  class FixedSizeHostMemoryResource {
    const cfg: Config
    const allocatedBytes: AtomicBoundedCounter
    const peakAllocatedBytes: AtomicPeakTracker
    var allocatedBlocks: seq<Addr>
    var freeBlocks: seq<Addr>
    var activeReservations: map<ChunkedReservedArea, int>

    // History: what has been handed out, and what came of it.
    ghost var issued: set<ChunkedReservedArea>
    ghost var pending: seq<nat>
    ghost var live: seq<Allocation<ChunkedReservedArea>>
    ghost var lost: seq<Allocation<ChunkedReservedArea>>
    ghost var returned: seq<Addr>
    ghost var busy: Option<InFlight<ChunkedReservedArea>>

    ghost function View(): HostState<ChunkedReservedArea>
      reads this, allocatedBytes, peakAllocatedBytes, activeReservations.Keys
    {
      HostState(allocatedBytes.value, peakAllocatedBytes.peak,
                map a | a in activeReservations :: Arena(a.size, activeReservations[a]),
                issued, pending, allocatedBlocks, freeBlocks, live, lost, returned, busy)
    }

    /** Between calls: nothing pending, no allocation in progress. */
    ghost predicate Ready()
      reads this, allocatedBytes, peakAllocatedBytes, activeReservations.Keys
    {
      cfg.Valid() && Quiet(View())
    }

    constructor (memoryLimit: nat, memoryCapacity: nat, blockSize: nat, poolSize: nat, initialPools: seq<Addr>)
      requires 0 < blockSize && memoryLimit < WORD && memoryCapacity < WORD
      ensures cfg == Config(memoryLimit, memoryCapacity, AlignUp(blockSize, 16), poolSize)
      ensures View() == InitialState(cfg, initialPools)
      ensures Ready() && fresh(allocatedBytes) && fresh(peakAllocatedBytes)
    {
      cfg := Config(memoryLimit, memoryCapacity, AlignUp(blockSize, 16), poolSize);
      allocatedBytes := new AtomicBoundedCounter(0);
      peakAllocatedBytes := new AtomicPeakTracker();
      allocatedBlocks, freeBlocks, activeReservations := [], [], map[];
      issued, pending, live, lost, returned, busy := {}, [], [], [], [], None;
      new;
      for i := 0 to |initialPools|
        invariant allocatedBlocks == initialPools[..i]
        invariant View() == InitialState(cfg, initialPools[..i])
      {
        assert initialPools[..i + 1][..i] == initialPools[..i];
        ExpandPool(initialPools[i]);
      }
      assert initialPools[..|initialPools|] == initialPools;
    }

    /** `expand_pool` once the upstream resource has answered with an address. */
    method ExpandPool(base: Addr)
      modifies this`allocatedBlocks, this`freeBlocks
      ensures allocatedBlocks == old(allocatedBlocks) + [base]
      ensures freeBlocks == old(freeBlocks) + PoolBlocks(cfg, base)
      ensures View() == old(View()).(pools := allocatedBlocks, free := freeBlocks)
    {
      allocatedBlocks := allocatedBlocks + [base];
      var i := 0;
      while i < cfg.poolSize
        invariant i <= cfg.poolSize
        invariant allocatedBlocks == old(allocatedBlocks) + [base]
        invariant freeBlocks == old(freeBlocks) + PoolBlocks(cfg, base)[..i]
      {
        freeBlocks := freeBlocks + [base + i * cfg.blockSize];
        i := i + 1;
      }
    }

    /** `register_reservation`. */
    method RegisterReservation(arena: ChunkedReservedArea)
      modifies this`activeReservations, this`issued
      ensures activeReservations == old(activeReservations)[arena := 0]
      ensures issued == old(issued) + {arena}
    {
      activeReservations := activeReservations[arena := 0];
      issued := issued + {arena};
    }

    /** `reserve`: null when the limit refuses, otherwise a registered arena of the rounded size. */
    method Reserve(bytes: nat) returns (arena: ChunkedReservedArea?)
      requires Ready()
      modifies this, allocatedBytes, peakAllocatedBytes
      ensures Ready()
      ensures arena == null <==> !Fits(old(View().charged), AlignUp(bytes, cfg.blockSize), cfg.limit)
      ensures arena == null ==> View() == old(View())
      ensures arena != null ==>
                && fresh(arena) && arena.size >= 0 && Rounded(arena.size, bytes, cfg.blockSize)
                && activeReservations == old(activeReservations)[arena := 0]
                && allocatedBytes.value == old(allocatedBytes.value) + arena.size <= cfg.limit
      ensures arena != null ==> View() == HostCalls.Reserve(cfg, old(View()), bytes, arena)
    {
      ghost var st := View();
      var b := AlignUp(bytes, cfg.blockSize);
      var ok, post, at := allocatedBytes.TryAdd(b, cfg.limit);
      if !ok {
        return null;
      }
      peakAllocatedBytes.UpdatePeak(post);
      var slot := new ChunkedReservedArea(b);
      RegisterReservation(slot);
      assert View() == HostCalls.Reserve(cfg, st, bytes, slot);
      AlignUpIsRounded(bytes, cfg.blockSize);
      return slot;
    }

    /** `reserve_upto`: always an arena, of whatever part of the request the limit leaves. */
    method ReserveUpTo(bytes: nat) returns (arena: ChunkedReservedArea)
      requires Ready()
      modifies this, allocatedBytes, peakAllocatedBytes
      ensures Ready()
      ensures fresh(arena) && View() == HostCalls.ReserveUpTo(cfg, old(View()), bytes, arena)
      ensures activeReservations == old(activeReservations)[arena := 0]
      ensures allocatedBytes.value == old(allocatedBytes.value) + arena.size
      ensures forall n: nat :: Rounded(n, bytes, cfg.blockSize) ==>
                arena.size == Min(n, Max(0, cfg.limit - old(allocatedBytes.value)))
    {
      ghost var st := View();
      var given, post, at := allocatedBytes.AddBounded(AlignUp(bytes, cfg.blockSize), cfg.limit);
      if given > 0 {
        peakAllocatedBytes.UpdatePeak(post);
      }
      arena := new ChunkedReservedArea(given);
      RegisterReservation(arena);
      assert View() == HostCalls.ReserveUpTo(cfg, st, bytes, arena);
      AlignUpIsRounded(bytes, cfg.blockSize);
    }

    /** `grow_reservation_by`. */
    method GrowReservationBy(arena: ChunkedReservedArea, bytes: nat) returns (ok: bool)
      requires Ready() && arena in activeReservations
      modifies allocatedBytes, peakAllocatedBytes, arena
      ensures Ready()
      ensures ok == old(Fits(View().charged, AlignUp(bytes, cfg.blockSize), cfg.limit))
      ensures View() == Grow(cfg, old(View()), arena, bytes)
      ensures activeReservations == old(activeReservations)
      ensures ok ==> arena.size >= old(arena.size) && Rounded(arena.size - old(arena.size), bytes, cfg.blockSize)
      ensures !ok ==> arena.size == old(arena.size)
      ensures allocatedBytes.value - old(allocatedBytes.value) == arena.size - old(arena.size)
    {
      ghost var st := View();
      var b := AlignUp(bytes, cfg.blockSize);
      var post: int;
      ghost var at;
      ok, post, at := allocatedBytes.TryAdd(b, cfg.limit);
      if ok {
        peakAllocatedBytes.UpdatePeak(post);
        arena.size := arena.size + b;
      }
      assert View() == Grow(cfg, st, arena, bytes);
      AlignUpIsRounded(bytes, cfg.blockSize);
    }

    /** `shrink_reservation_to_fit`. */
    method ShrinkReservationToFit(arena: ChunkedReservedArea)
      requires Ready() && arena in activeReservations
      modifies allocatedBytes, arena
      ensures Ready()
      ensures View() == Shrink(old(View()), arena)
      ensures activeReservations == old(activeReservations)
      ensures arena.size == Min(old(arena.size), Max(0, activeReservations[arena]))
    {
      ghost var st := View();
      var current := Max(0, activeReservations[arena]);
      if current < arena.size {
        var oldSize := arena.size;
        arena.size := current;
        allocatedBytes.Sub(oldSize - current);
      }
      assert View() == Shrink(st, arena);
    }

    /** `release_reservation`, the arena's destructor. False is the exception for an arena that is
        not registered (any more). */
    method ReleaseReservation(arena: ChunkedReservedArea) returns (registered: bool)
      requires Ready()
      modifies this`activeReservations, allocatedBytes
      ensures Ready()
      ensures registered == (arena in old(activeReservations))
      ensures View() == Release(old(View()), arena)
      ensures activeReservations == old(activeReservations) - {arena}
    {
      ghost var st := View();
      registered := arena in activeReservations;
      if registered {
        var current := Max(0, activeReservations[arena]);
        allocatedBytes.Sub(if arena.size > current then arena.size - current else 0);
        activeReservations := activeReservations - {arena};
      }
      assert View() == Release(st, arena);
    }

    /** The tracker part of an allocation: what of it the reservation does not cover. */
    method TrackAllocation(arena: ChunkedReservedArea, total: nat) returns (upstreamTracked: int)
      requires arena in activeReservations
      modifies this`activeReservations
      ensures activeReservations == old(activeReservations[arena := activeReservations[arena] + total])
      ensures upstreamTracked == OverflowCharge(total, arena.size, old(activeReservations[arena]))
    {
      var pre := activeReservations[arena];
      var post := pre + total;
      activeReservations := activeReservations[arena := post];
      upstreamTracked := total;
      if post <= arena.size {
        upstreamTracked := 0;
      } else if pre < arena.size {
        upstreamTracked := post - arena.size;
      }
    }

    method UntrackAllocation(res: Option<ChunkedReservedArea>, total: nat)
      requires res.Some? ==> res.value in activeReservations
      modifies this`activeReservations
      ensures activeReservations.Keys == old(activeReservations.Keys)
      ensures View() == old(View()).(arenas := AddTracked(old(View()).arenas, res, 0 - total))
    {
      if res.Some? {
        activeReservations := activeReservations[res.value := activeReservations[res.value] - total];
      }
    }

    /** The tracker and the capacity check; a refusal puts the tracker back. */
    method ChargeAllocation(totalBytes: nat, res: Option<ChunkedReservedArea>)
      returns (ok: bool, upstreamTracked: int, post: int)
      requires Ready() && 0 < totalBytes && (res.Some? ==> res.value in activeReservations)
      modifies this`activeReservations, this`busy, allocatedBytes
      ensures View() == Begin(cfg, old(View()), totalBytes, res)
      ensures ok == View().busy.Some?
      ensures activeReservations.Keys == old(activeReservations.Keys)
      ensures ok ==> upstreamTracked >= 0
                     && busy == Some(InFlight([], CeilDiv(totalBytes, cfg.blockSize), upstreamTracked, post, res))
    {
      ghost var st := View();
      var total := AlignUp(totalBytes, cfg.blockSize);
      upstreamTracked := total;
      if res.Some? {
        upstreamTracked := TrackAllocation(res.value, total);
      }
      assert upstreamTracked == BeginCharge(st, total, res);
      assert View() == st.(arenas := AddTracked(st.arenas, res, total));
      ghost var at;
      ok, post, at := allocatedBytes.TryAdd(upstreamTracked, cfg.capacity);
      if ok {
        busy := Some(InFlight([], CeilDiv(totalBytes, cfg.blockSize), upstreamTracked, post, res));
      } else {
        UntrackAllocation(res, total);
        assert View().arenas == st.arenas;
      }
    }

    /** "Cleanup on failure". */
    method RollBackBlocks(taken: seq<Addr>, numBlocks: nat, upstreamTracked: nat, ghost post: int,
                          res: Option<ChunkedReservedArea>)
      requires busy == Some(InFlight(taken, numBlocks, upstreamTracked, post, res))
      requires res.Some? ==> res.value in activeReservations
      modifies this, allocatedBytes
      ensures View() == RollBack(cfg, old(View()), old(busy).value)
      ensures allocatedBlocks == old(allocatedBlocks) && pending == old(pending)
      ensures busy == None && live == old(live) && lost == old(lost)
    {
      ghost var st := View();
      freeBlocks := freeBlocks + taken;
      allocatedBytes.Sub(upstreamTracked);
      busy := None;
      UntrackAllocation(res, numBlocks * cfg.blockSize);
      assert View() == RollBack(cfg, st, st.busy.value);
    }

    method PopFreeBlock(taken: seq<Addr>, numBlocks: nat, upstreamTracked: nat, post: int,
                        res: Option<ChunkedReservedArea>)
      returns (out: Outcome<ChunkedReservedArea>, taken': seq<Addr>)
      requires |taken| < numBlocks && freeBlocks != []
      requires busy == Some(InFlight(taken, numBlocks, upstreamTracked, post, res))
      modifies this, peakAllocatedBytes
      ensures View() == PopBlock(cfg, old(View()), old(busy).value)
      ensures activeReservations == old(activeReservations) && allocatedBlocks == old(allocatedBlocks)
      ensures pending == old(pending)
      ensures out.EmptyHandle? || out.Handle?
      ensures out.EmptyHandle? ==> |taken'| == |taken| + 1 < numBlocks
                                   && busy == Some(InFlight(taken', numBlocks, upstreamTracked, post, res))
      ensures out.Handle? ==> |taken'| == numBlocks && busy == None && live == old(live) + [out.allocation]
                              && out.allocation == Allocation(taken', numBlocks * cfg.blockSize, res)
    {
      ghost var st := View();
      taken' := taken + [freeBlocks[|freeBlocks| - 1]];
      freeBlocks := freeBlocks[..|freeBlocks| - 1];
      if |taken'| < numBlocks {
        busy := Some(InFlight(taken', numBlocks, upstreamTracked, post, res));
        out := EmptyHandle;
      } else {
        peakAllocatedBytes.UpdatePeak(post);
        var handle := Allocation(taken', numBlocks * cfg.blockSize, res);
        live := live + [handle];
        busy := None;
        out := Handle(handle);
      }
      assert View() == PopBlock(cfg, st, st.busy.value);
    }

    /** One iteration: expand the pool when no block is free, then either give up - by the upstream
        exception, or by putting everything back - or pop a block. `EmptyHandle` means go on. */
    method TakeBlock(taken: seq<Addr>, numBlocks: nat, upstreamTracked: nat, post: int,
                     res: Option<ChunkedReservedArea>, answer: Option<Addr>)
      returns (out: Outcome<ChunkedReservedArea>, taken': seq<Addr>)
      requires cfg.Valid() && |taken| < numBlocks
      requires freeBlocks == [] && answer.Some? ==> FreshPool(cfg, allocatedBlocks, answer.value)
      requires busy == Some(InFlight(taken, numBlocks, upstreamTracked, post, res))
      requires res.Some? ==> res.value in activeReservations
      modifies this, allocatedBytes, peakAllocatedBytes
      ensures View() == Take(cfg, old(View()), answer)
      ensures pending == old(pending)
      ensures !out.OutOfBlocks? ==> activeReservations == old(activeReservations)
      ensures old(freeBlocks) == [] && answer.Some? ==> allocatedBlocks == old(allocatedBlocks) + [answer.value]
      ensures !(old(freeBlocks) == [] && answer.Some?) ==> allocatedBlocks == old(allocatedBlocks)
      ensures !out.BadReservation? && !out.OverCapacity?
      ensures out.EmptyHandle? ==> |taken'| == |taken| + 1 < numBlocks
                                   && busy == Some(InFlight(taken', numBlocks, upstreamTracked, post, res))
      ensures out.Handle? ==> |taken'| == numBlocks && busy == None && live == old(live) + [out.allocation]
                              && out.allocation == Allocation(taken', numBlocks * cfg.blockSize, res)
      ensures out.UpstreamThrew? ==> busy == None && live == old(live) && |lost| == |old(lost)| + 1
      ensures out.OutOfBlocks? ==> busy == None && live == old(live) && lost == old(lost)
    {
      if freeBlocks == [] {
        if answer.None? {
          lost := lost + [Allocation(taken, numBlocks * cfg.blockSize, res)];
          busy := None;
          return UpstreamThrew, taken;
        }
        ExpandPool(answer.value);
      }
      if freeBlocks == [] {
        RollBackBlocks(taken, numBlocks, upstreamTracked, post, res);
        return OutOfBlocks, taken;
      }
      out, taken' := PopFreeBlock(taken, numBlocks, upstreamTracked, post, res);
    }

    /** One iteration of the block loop, with the answers `expand_pool` would still get. */
    method TakeNext(taken: seq<Addr>, numBlocks: nat, upstreamTracked: nat, post: int,
                    res: Option<ChunkedReservedArea>, upstream: seq<Option<Addr>>)
      returns (out: Outcome<ChunkedReservedArea>, taken': seq<Addr>, rest: seq<Option<Addr>>)
      requires cfg.Valid() && |taken| < numBlocks && FreshAnswers(cfg, allocatedBlocks, upstream)
      requires busy == Some(InFlight(taken, numBlocks, upstreamTracked, post, res))
      requires res.Some? ==> res.value in activeReservations
      modifies this, allocatedBytes, peakAllocatedBytes
      ensures pending == old(pending)
      ensures out.EmptyHandle? ==>
                && |taken'| < numBlocks && |taken| < |taken'|
                && activeReservations == old(activeReservations) && FreshAnswers(cfg, allocatedBlocks, rest)
                && busy == Some(InFlight(taken', numBlocks, upstreamTracked, post, res))
                && TakeAll(cfg, View(), rest) == TakeAll(cfg, old(View()), upstream)
      ensures !out.EmptyHandle? ==> busy.None? && (View(), out) == TakeAll(cfg, old(View()), upstream)
      ensures out.Handle? ==> |taken'| == numBlocks
      ensures !out.Handle? && !out.EmptyHandle? ==> out.UpstreamThrew? || out.OutOfBlocks?
    {
      var answer := None;
      rest := upstream;
      if freeBlocks == [] && upstream != [] {
        answer, rest := upstream[0], upstream[1..];
      }
      out, taken' := TakeBlock(taken, numBlocks, upstreamTracked, post, res, answer);
    }

    /** The block loop of `allocate_multiple_blocks`. */
    method TakeBlocks(numBlocks: nat, upstreamTracked: nat, post: int,
                      res: Option<ChunkedReservedArea>, upstream: seq<Option<Addr>>)
      returns (out: Outcome<ChunkedReservedArea>)
      requires cfg.Valid() && FreshAnswers(cfg, allocatedBlocks, upstream) && 0 < numBlocks
      requires busy == Some(InFlight([], numBlocks, upstreamTracked, post, res))
      requires res.Some? ==> res.value in activeReservations
      modifies this, allocatedBytes, peakAllocatedBytes
      ensures (View(), out) == TakeAll(cfg, old(View()), upstream)
      ensures busy.None? && pending == old(pending)
    {
      ghost var goal := TakeAll(cfg, View(), upstream);
      var taken: seq<Addr> := [];
      var rest := upstream;
      out := EmptyHandle;
      while |taken| < numBlocks
        invariant pending == old(pending)
        invariant |taken| < numBlocks ==>
                    && activeReservations == old(activeReservations) && FreshAnswers(cfg, allocatedBlocks, rest)
                    && busy == Some(InFlight(taken, numBlocks, upstreamTracked, post, res))
                    && TakeAll(cfg, View(), rest) == goal
        invariant |taken| >= numBlocks ==> busy.None? && (View(), out) == goal
        decreases numBlocks - |taken|
      {
        out, taken, rest := TakeNext(taken, numBlocks, upstreamTracked, post, res, rest);
        if out.UpstreamThrew? || out.OutOfBlocks? {
          return;
        }
      }
    }

    /** `allocate_multiple_blocks`. `upstream` lists what the upstream resource answers to the calls
        of `expand_pool` made here; past its end, and where it holds `None`, it throws. */
    method AllocateMultipleBlocks(totalBytes: nat, res: Option<ChunkedReservedArea>, upstream: seq<Option<Addr>>)
      returns (out: Outcome<ChunkedReservedArea>)
      requires Ready() && FreshAnswers(cfg, allocatedBlocks, upstream)
      modifies this, allocatedBytes, peakAllocatedBytes
      ensures Ready()
      ensures (View(), out) == Allocate(cfg, old(View()), totalBytes, res, upstream)
    {
      if totalBytes == 0 {
        return EmptyHandle;
      }
      if res.Some? && res.value !in activeReservations {
        return BadReservation;
      }
      var ok, upstreamTracked, post := ChargeAllocation(totalBytes, res);
      if !ok {
        return OverCapacity;
      }
      out := TakeBlocks(CeilDiv(totalBytes, cfg.blockSize), upstreamTracked, post, res, upstream);
    }

    /** `return_allocated_chunks`, called by the destructor of the `index`-th live handle. */
    method ReturnAllocatedChunks(chunks: seq<Addr>, arena: Option<ChunkedReservedArea>, ghost index: nat)
      requires Ready() && index < |live| && live[index].blocks == chunks && live[index].arena == arena
      modifies this, allocatedBytes
      ensures Ready()
      ensures View() == Drop(cfg, old(View()), index)
    {
      ghost var st := View();
      var reclaimed: int := |chunks| * cfg.blockSize;
      if arena.Some? && arena.value in activeReservations {
        var size := arena.value.size;
        var pre := activeReservations[arena.value];
        var post := pre - reclaimed;
        activeReservations := activeReservations[arena.value := post];
        if pre <= size {
          reclaimed := 0;
        } else if post < size {
          reclaimed := pre - size;
        }
      }
      allocatedBytes.Sub(reclaimed);
      live := RemoveAt(live, index);
      returned := returned + chunks;
      assert View() == Drop(cfg, st, index);
    }
  }
}
