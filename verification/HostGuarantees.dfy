/** What the users of the host resource may rely on, derived from the accounting invariant. */
module HostGuarantees {
  import opened Prelude
  import opened AtomicCounters
  import opened HostLedger
  import opened HostAccounting
  import opened HostBlocks
  import opened HostCalls

  // ----- capacity -----

  lemma OwnedShare<A>(cfg: Config, st: HostState<A>, m: map<A, Arena>)
    requires forall a :: a in m ==> a in st.arenas && m[a] == st.arenas[a]
    requires TrackersExact(cfg, st)
    ensures Held(cfg, st, AllBytes()) == MapSum(m, Tracked()) + Held(cfg, st, Unowned(m.Keys))
    decreases |m|
  {
    if m == map[] {
      HeldAgree(cfg, st, AllBytes(), Unowned(m.Keys));
    } else {
      var a :| a in m;
      var rest := m - {a};
      OwnedShare(cfg, st, rest);
      MapSumRemove(m, a, Tracked());
      assert rest.Keys == m.Keys - {a};
      HeldDisown(cfg, st, m.Keys, a);
    }
  }

  lemma {:induction false} LiveBytesAreBlocks<A>(s: seq<Allocation<A>>, blockSize: nat)
    requires forall x :: x in s ==> x.bytes == |x.blocks| * blockSize
    ensures SeqSum(s, AllBytes()) == SeqSum(s, BlockCount()) * blockSize
  {
    if s != [] {
      var rest, x := s[..|s| - 1], s[|s| - 1];
      LiveBytesAreBlocks(rest, blockSize);
      assert x in s;
      assert SeqSum(s, BlockCount()) * blockSize == SeqSum(rest, BlockCount()) * blockSize + |x.blocks| * blockSize;
    }
  }

  /** Every byte behind a live handle is charged to the counter, whoever owns the charge. */
  lemma LiveBytesCharged<A>(cfg: Config, st: HostState<A>, slack: int)
    requires Accounted(cfg, st, slack)
    ensures SeqSum(st.live, BlockCount()) * cfg.blockSize <= st.charged
  {
    LiveBytesAreBlocks(st.live, cfg.blockSize);
    OwnedShare(cfg, st, st.arenas);
    MapSumLeq(st.arenas, Tracked(), Footprint());
    FootprintNonNegative(cfg, st, slack);
    SeqSumNonNegative(st.lost, AllBytes());
    SeqSumNonNegative(BusyAllocations(cfg, st), AllBytes());
  }

  /** Physical capacity: in every reachable state the blocks in the hands of callers fit under the
      counter, and the counter under the capacity. */
  lemma CapacitySafety<A>(cfg: Config, pools: seq<Addr>, ops: seq<Op<A>>)
    requires cfg.Valid() && cfg.limit <= cfg.capacity
    ensures var st := Exec(cfg, InitialState(cfg, pools), ops);
            SeqSum(st.live, BlockCount()) * cfg.blockSize <= st.charged <= cfg.capacity
  {
    RunAccounted(cfg, pools, ops);
    LiveBytesCharged(cfg, Exec(cfg, InitialState(cfg, pools), ops), Slack(cfg, InitialState(cfg, pools), ops));
  }

  /** The capacity bounds every reachable state exactly when the reservation limit does not exceed it. */
  lemma CapacityHoldsIff(cfg: Config, pools: seq<Addr>)
    requires cfg.Valid()
    ensures (forall ops: seq<Op<nat>> :: Exec(cfg, InitialState(cfg, pools), ops).charged <= cfg.capacity)
            <==> cfg.limit <= cfg.capacity
  {
    if cfg.limit <= cfg.capacity {
      forall ops: seq<Op<nat>>
        ensures Exec(cfg, InitialState(cfg, pools), ops).charged <= cfg.capacity
      {
        CapacitySafety(cfg, pools, ops);
      }
    } else {
      var op: Op<nat> := OpChargeUpTo(cfg.limit, AlignUp(cfg.limit, cfg.blockSize));
      assert [op][..0] == [];
      assert Exec(cfg, InitialState(cfg, pools), [op]) == Next(cfg, InitialState(cfg, pools), op);
    }
  }

  lemma ArenaCovered<A>(cfg: Config, st: HostState<A>, slack: int, arena: A)
    requires Accounted(cfg, st, slack) && arena in st.arenas
    ensures 0 <= st.arenas[arena].tracked && st.arenas[arena].size <= st.charged
  {
    TrackerCovers(cfg, st, slack, arena);
    CounterCoversArena(cfg, st, slack, arena);
  }

  predicate TakesBack<A>(op: Op<A>) {
    op.OpShrink? || op.OpRelease? || op.OpTake? || op.OpDrop?
  }

  function Unused<A(==)>(st: HostState<A>, arena: A): int {
    if arena in st.arenas then Max(0, st.arenas[arena].size - Max(0, st.arenas[arena].tracked)) else 0
  }

  function HandleCredit<A(==)>(cfg: Config, st: HostState<A>, x: Allocation<A>): int {
    if x.arena.Some? && x.arena.value in st.arenas then
      OverflowCredit(|x.blocks| * cfg.blockSize, st.arenas[x.arena.value].size, st.arenas[x.arena.value].tracked)
    else |x.blocks| * cfg.blockSize
  }

  /** What the step hands to the unsigned subtraction, and zero if it comes to none. */
  function Subtrahend<A(==)>(cfg: Config, st: HostState<A>, op: Op<A>): int {
    match op
    case OpShrink(arena) => if st.busy.None? then Unused(st, arena) else 0
    case OpRelease(arena) => if st.busy.None? then Unused(st, arena) else 0
    case OpTake(upstream) =>
      if st.busy.Some? && st.free == [] && cfg.poolSize == 0 && upstream.Some? && FreshPool(cfg, st.pools, upstream.value)
      then st.busy.value.charge else 0
    case OpDrop(index) => if st.busy.None? && index < |st.live| then HandleCredit(cfg, st, st.live[index]) else 0
    case _ => 0
  }

  /** `op` subtracts an amount that is there, so it makes no difference that the subtraction is unsigned. */
  predicate SubtractsWhatIsThere<A(==)>(cfg: Config, st: HostState<A>, op: Op<A>)
    requires cfg.Valid()
  {
    && 0 <= Subtrahend(cfg, st, op) <= st.charged
    && Next(cfg, st, op).charged == st.charged - Subtrahend(cfg, st, op)
  }

  /** Popping a block moves no charge; only a rollback does. */
  lemma TakeCharges<A>(cfg: Config, st: HostState<A>, upstream: Option<Addr>)
    requires cfg.Valid() && 0 <= st.charged
    ensures var n := Subtrahend(cfg, st, OpTake(upstream));
            Take(cfg, st, upstream).charged == SubWord(st.charged, n)
  {
  }

  lemma TakeSubtracts<A>(cfg: Config, st: HostState<A>, slack: int, upstream: Option<Addr>)
    requires Accounted(cfg, st, slack)
    ensures SubtractsWhatIsThere(cfg, st, OpTake(upstream))
  {
    TakeCharges(cfg, st, upstream);
    if st.busy.Some? { BusyCovered(cfg, st, slack); }
    assert 0 <= Subtrahend(cfg, st, OpTake(upstream)) <= st.charged;
    assert Next(cfg, st, OpTake(upstream)) == Take(cfg, st, upstream);
  }

  lemma DropSubtracts<A>(cfg: Config, st: HostState<A>, slack: int, index: nat)
    requires Accounted(cfg, st, slack)
    ensures SubtractsWhatIsThere(cfg, st, OpDrop(index))
  {
    if st.busy.None? && index < |st.live| { DropCredit(cfg, st, slack, index); }
  }

  lemma TakingBackNeverWraps<A>(cfg: Config, st: HostState<A>, slack: int, op: Op<A>)
    requires Accounted(cfg, st, slack) && TakesBack(op)
    ensures SubtractsWhatIsThere(cfg, st, op)
  {
    match op
    case OpShrink(arena) => if arena in st.arenas { ArenaCovered(cfg, st, slack, arena); }
    case OpRelease(arena) => if arena in st.arenas { ArenaCovered(cfg, st, slack, arena); }
    case OpTake(upstream) => TakeSubtracts(cfg, st, slack, upstream);
    case OpDrop(index) => DropSubtracts(cfg, st, slack, index);
    case _ =>
  }

  /** No subtraction in the resource ever wraps: after any run, whatever a step takes back from the
      unsigned counter is at most what the counter holds, and no tracker is negative. */
  lemma NoUnderflow<A>(cfg: Config, pools: seq<Addr>, ops: seq<Op<A>>, op: Op<A>)
    requires cfg.Valid()
    ensures var st := Exec(cfg, InitialState(cfg, pools), ops);
            && (TakesBack(op) ==> SubtractsWhatIsThere(cfg, st, op))
            && (forall a :: a in st.arenas ==> st.arenas[a].tracked >= 0)
  {
    var st0 := InitialState<A>(cfg, pools);
    var st, slack := Exec(cfg, st0, ops), Slack(cfg, st0, ops);
    RunAccounted(cfg, pools, ops);
    if TakesBack(op) { TakingBackNeverWraps(cfg, st, slack, op); }
    forall a | a in st.arenas
      ensures st.arenas[a].tracked >= 0
    {
      TrackerCovers(cfg, st, slack, a);
    }
  }

  // ----- the reservation guarantee -----

  /** The request fits in what is left of the reservation. */
  predicate FitsReservation<A(==)>(cfg: Config, st: HostState<A>, bytes: nat, arena: A)
    requires cfg.Valid()
  {
    && st.busy.None? && 0 < bytes && arena in st.arenas
    && st.arenas[arena].tracked + AlignUp(bytes, cfg.blockSize) <= st.arenas[arena].size
  }

  lemma FittingBegins<A>(cfg: Config, st: HostState<A>, bytes: nat, arena: A)
    requires cfg.Valid() && FitsReservation(cfg, st, bytes, arena) && st.charged <= cfg.capacity
    ensures var st1 := Begin(cfg, st, bytes, Some(arena));
            st1.busy == Some(InFlight([], CeilDiv(bytes, cfg.blockSize), 0, st.charged, Some(arena)))
            && st1.charged == st.charged && st1.free == st.free && st1.pools == st.pools
  {
  }

  lemma FittingAllocation<A>(cfg: Config, st: HostState<A>, bytes: nat, arena: A, upstream: seq<Option<Addr>>)
    requires cfg.Valid() && FitsReservation(cfg, st, bytes, arena) && st.charged <= cfg.capacity
    ensures var (st', out) := Allocate(cfg, st, bytes, Some(arena), upstream);
            && !out.OverCapacity? && !out.BadReservation?
            && (out.Handle? <==> EnoughBlocks(cfg, st, bytes, upstream))
            && (out.Handle? ==> st'.charged == st.charged && |out.allocation.blocks| == CeilDiv(bytes, cfg.blockSize))
  {
    FittingBegins(cfg, st, bytes, arena);
    AllocationEnds(cfg, st, bytes, Some(arena), upstream);
    TakeAllMeans(cfg, Begin(cfg, st, bytes, Some(arena)), upstream);
  }

  /** The guarantee a reservation is for: whatever everybody else has done before, an allocation
      that fits in what is left of its reservation passes the capacity check without moving the
      counter, and gets all its blocks exactly if the free list and the upstream resource have them. */
  lemma ReservationGuarantee<A>(cfg: Config, pools: seq<Addr>, ops: seq<Op<A>>,
                                bytes: nat, arena: A, upstream: seq<Option<Addr>>)
    requires cfg.Valid() && cfg.limit <= cfg.capacity
    requires FitsReservation(cfg, Exec(cfg, InitialState(cfg, pools), ops), bytes, arena)
    ensures var st := Exec(cfg, InitialState(cfg, pools), ops);
            var (st', out) := Allocate(cfg, st, bytes, Some(arena), upstream);
            && Begin(cfg, st, bytes, Some(arena)).busy.Some?
            && Begin(cfg, st, bytes, Some(arena)).charged == st.charged
            && !out.OverCapacity? && !out.BadReservation?
            && (out.Handle? <==> EnoughBlocks(cfg, st, bytes, upstream))
            && (out.Handle? ==> st'.charged == st.charged && |out.allocation.blocks| == CeilDiv(bytes, cfg.blockSize))
  {
    var st := Exec(cfg, InitialState(cfg, pools), ops);
    RunAccounted(cfg, pools, ops);
    FittingBegins(cfg, st, bytes, arena);
    FittingAllocation(cfg, st, bytes, arena, upstream);
  }

  /** If the limit exceeds the capacity, reservations can promise more than there is. Then a request
      that fits in its reservation passes exactly while the counter is within the capacity. */
  lemma FittingPassesIff<A>(cfg: Config, st: HostState<A>, slack: int, bytes: nat, arena: A)
    requires Accounted(cfg, st, slack) && FitsReservation(cfg, st, bytes, arena)
    ensures Begin(cfg, st, bytes, Some(arena)).busy.Some? <==> st.charged <= cfg.capacity
    ensures Begin(cfg, st, bytes, Some(arena)).charged == st.charged
  {
    if st.charged <= cfg.capacity { FittingBegins(cfg, st, bytes, arena); }
  }

  predicate FittingPasses<A(==)>(cfg: Config, st: HostState<A>, bytes: nat, arena: A)
    requires cfg.Valid()
  {
    FitsReservation(cfg, st, bytes, arena) ==> Begin(cfg, st, bytes, Some(arena)).busy.Some?
  }

  lemma FittingPassesUnless<A>(cfg: Config, st: HostState<A>, slack: int, bytes: nat, arena: A)
    requires Accounted(cfg, st, slack) && (cfg.limit <= cfg.capacity || cfg.limit < cfg.blockSize)
    ensures FittingPasses(cfg, st, bytes, arena)
  {
    if FitsReservation(cfg, st, bytes, arena) {
      FittingPassesIff(cfg, st, slack, bytes, arena);
      ArenaCovered(cfg, st, slack, arena);
      MulMonotone(1, CeilDiv(bytes, cfg.blockSize), cfg.blockSize);
    }
  }

  lemma ReserveWholeLimit(cfg: Config, st: HostState<nat>)
    requires cfg.Valid() && st.charged == 0 && st.pending == [] && st.arenas == map[] && st.issued == {} && st.busy.None?
    ensures var st' := Register(ChargeUpTo(cfg, st, cfg.limit, AlignUp(cfg.limit, cfg.blockSize)), 0, 0);
            st'.charged == cfg.limit && st'.arenas == map[0 := Arena(cfg.limit, 0)] && st'.busy.None?
  {
  }

  lemma OneByteRefused(cfg: Config, st: HostState<nat>)
    requires cfg.Valid() && cfg.capacity < cfg.limit && cfg.blockSize <= cfg.limit
    requires st.charged == cfg.limit && st.arenas == map[0 := Arena(cfg.limit, 0)] && st.busy.None?
    ensures !FittingPasses(cfg, st, 1, 0)
  {
    assert CeilDiv(1, cfg.blockSize) == 1;
    assert AlignUp(1, cfg.blockSize) == cfg.blockSize;
  }

  /** A reservation of the whole limit, when that is a block at least and more than the capacity:
      one byte of it is refused. */
  lemma FittingRefused(cfg: Config, start: HostState<nat>, ops: seq<Op<nat>>)
    requires cfg.Valid() && cfg.capacity < cfg.limit && cfg.blockSize <= cfg.limit
    requires start.charged == 0 && start.pending == [] && start.arenas == map[] && start.issued == {} && start.busy.None?
    requires ops == [OpChargeUpTo(cfg.limit, AlignUp(cfg.limit, cfg.blockSize)), OpRegister(0, 0)]
    ensures !FittingPasses(cfg, Exec(cfg, start, ops), 1, 0)
  {
    assert ops[..1] == [ops[0]] && ops[..1][..0] == [];
    assert Exec(cfg, start, ops[..1]) == Next(cfg, start, ops[0]);
    ReserveWholeLimit(cfg, start);
    OneByteRefused(cfg, Exec(cfg, start, ops));
  }

  /** The guarantee holds for every request that fits in its reservation, in every reachable state,
      exactly when the limit is at most the capacity, or too small to reserve even one block. */
  lemma FittingAlwaysPassesIff(cfg: Config, pools: seq<Addr>)
    requires cfg.Valid()
    ensures (forall ops: seq<Op<nat>>, bytes: nat, arena: nat ::
               FittingPasses(cfg, Exec(cfg, InitialState(cfg, pools), ops), bytes, arena))
            <==> cfg.limit <= cfg.capacity || cfg.limit < cfg.blockSize
  {
    var start := InitialState<nat>(cfg, pools);
    if cfg.limit <= cfg.capacity || cfg.limit < cfg.blockSize {
      forall ops: seq<Op<nat>>, bytes: nat, arena: nat
        ensures FittingPasses(cfg, Exec(cfg, start, ops), bytes, arena)
      {
        RunAccounted(cfg, pools, ops);
        FittingPassesUnless(cfg, Exec(cfg, start, ops), Slack(cfg, start, ops), bytes, arena);
      }
    } else {
      FittingRefused(cfg, start, [OpChargeUpTo(cfg.limit, AlignUp(cfg.limit, cfg.blockSize)), OpRegister(0, 0)]);
    }
  }

  // ----- allocations that fail -----

  /** Counter, trackers, handles and peak as before, and the same free blocks in some order. */
  ghost predicate Restored<A>(st: HostState<A>, st': HostState<A>) {
    && st'.charged == st.charged && st'.arenas == st.arenas && st'.peak == st.peak
    && st'.live == st.live && st'.lost == st.lost && LoopFrame(st, st')
    && (forall u: Addr -> int :: SeqSum(st'.free, u) == SeqSum(st.free, u))
  }

  lemma AddTrackedUndo<A>(arenas: map<A, Arena>, arena: Option<A>, bytes: int)
    ensures AddTracked(AddTracked(arenas, arena, bytes), arena, -bytes) == arenas
  {
    var once := AddTracked(arenas, arena, bytes);
    var twice := AddTracked(once, arena, -bytes);
    assert once.Keys == arenas.Keys && twice.Keys == arenas.Keys;
    assert forall a :: a in arenas ==> twice[a] == arenas[a];
  }

  /** What stays behind for ever when the upstream resource throws in the middle. */
  predicate ChargeStuck<A(==)>(cfg: Config, st: HostState<A>, st': HostState<A>, bytes: nat, arena: Option<A>)
    requires cfg.Valid()
  {
    var total := AlignUp(bytes, cfg.blockSize);
    && st'.charged == st.charged + BeginCharge(st, total, arena)
    && st'.arenas == AddTracked(st.arenas, arena, total)
    && total > 0
    && |st'.lost| == |st.lost| + 1
  }

  lemma FailedLoop<A>(cfg: Config, st: HostState<A>, slack: int, bytes: nat, arena: Option<A>, upstream: seq<Option<Addr>>)
    requires Accounted(cfg, st, slack) && st.busy.None? && Begin(cfg, st, bytes, arena) != st
    requires !TakeAll(cfg, Begin(cfg, st, bytes, arena), upstream).1.Handle?
    ensures var (st', out) := TakeAll(cfg, Begin(cfg, st, bytes, arena), upstream);
            && (out.UpstreamThrew? ==> ChargeStuck(cfg, st, st', bytes, arena))
            && (out.OutOfBlocks? ==> Restored(st, st') && cfg.poolSize == 0)
            && (out.UpstreamThrew? || out.OutOfBlocks?)
  {
    BeginCharged(cfg, st, slack, bytes, arena);
    TakeAllMeans(cfg, Begin(cfg, st, bytes, arena), upstream);
    AddTrackedUndo(st.arenas, arena, AlignUp(bytes, cfg.blockSize));
  }

  /** Which failed allocations leave a trace can be told beforehand: one that hands out nothing
      restores everything unless it passes the checks at its head, free blocks and the pools the
      upstream resource will add do not cover it, and the expansion that comes up short throws.
      Then the charge and the tracked bytes stay for ever. The rollback branch runs only with
      pools of no blocks at all. */
  lemma FailedAllocation<A>(cfg: Config, st: HostState<A>, slack: int,
                            bytes: nat, arena: Option<A>, upstream: seq<Option<Addr>>)
    requires Accounted(cfg, st, slack) && st.busy.None?
    requires !(Passes(cfg, st, bytes, arena) && EnoughBlocks(cfg, st, bytes, upstream))
    ensures var (st', out) := Allocate(cfg, st, bytes, arena, upstream);
            && !out.Handle?
            && (Restored(st, st') <==> !Abandons(cfg, st, bytes, arena, upstream))
            && (Abandons(cfg, st, bytes, arena, upstream) ==> ChargeStuck(cfg, st, st', bytes, arena))
            && (out.OutOfBlocks? ==> cfg.poolSize == 0)
  {
    AllocationEnds(cfg, st, bytes, arena, upstream);
    if Passes(cfg, st, bytes, arena) {
      FailedLoop(cfg, st, slack, bytes, arena, upstream);
    }
  }

  // ----- quiescence -----

  lemma {:induction false} EachCostsSomething<A>(s: seq<Allocation<A>>)
    requires forall x :: x in s ==> x.bytes > 0
    ensures SeqSum(s, AllBytes()) >= |s|
  {
    if s != [] {
      EachCostsSomething(s[..|s| - 1]);
      assert s[|s| - 1] in s;
    }
  }

  /** Once every reservation is destroyed and every handle dropped, in any order of the two, only
      the double charges of growths and the charges abandoned by upstream exceptions remain. */
  lemma QuiescentCounter<A>(cfg: Config, pools: seq<Addr>, ops: seq<Op<A>>)
    requires cfg.Valid()
    requires var st := Exec(cfg, InitialState(cfg, pools), ops);
             st.arenas == map[] && st.live == [] && st.pending == [] && st.busy.None?
    ensures var st := Exec(cfg, InitialState(cfg, pools), ops);
            && st.charged == Slack(cfg, InitialState(cfg, pools), ops) + SeqSum(st.lost, AllBytes())
            && SeqSum(st.lost, AllBytes()) >= |st.lost|
  {
    var st0 := InitialState<A>(cfg, pools);
    var st := Exec(cfg, st0, ops);
    RunAccounted(cfg, pools, ops);
    SeqSumEqual(st.lost, Unowned(st.arenas.Keys), AllBytes());
    EachCostsSomething(st.lost);
  }

  /** A growth that goes through while its reservation is already using more than its size. */
  predicate OverlappingGrowth<A(==)>(cfg: Config, st: HostState<A>, op: Op<A>)
    requires cfg.Valid()
  {
    && op.OpGrow? && op.bytes > 0 && st.busy.None? && op.arena in st.arenas
    && st.arenas[op.arena].tracked > st.arenas[op.arena].size
    && Fits(st.charged, AlignUp(op.bytes, cfg.blockSize), cfg.limit)
  }

  ghost predicate NoOverlappingGrowth<A>(cfg: Config, st: HostState<A>, ops: seq<Op<A>>)
    requires cfg.Valid()
  {
    ops == [] ||
    (NoOverlappingGrowth(cfg, st, ops[..|ops| - 1])
     && !OverlappingGrowth(cfg, Exec(cfg, st, ops[..|ops| - 1]), ops[|ops| - 1]))
  }

  lemma DoubleChargedIff<A>(cfg: Config, st: HostState<A>, op: Op<A>)
    requires cfg.Valid()
    ensures DoubleCharge(cfg, st, op) > 0 <==> OverlappingGrowth(cfg, st, op)
  {
  }

  lemma {:induction false} SlackZeroIff<A>(cfg: Config, st: HostState<A>, ops: seq<Op<A>>)
    requires cfg.Valid()
    ensures Slack(cfg, st, ops) == 0 <==> NoOverlappingGrowth(cfg, st, ops)
  {
    if ops != [] {
      SlackZeroIff(cfg, st, ops[..|ops| - 1]);
      DoubleChargedIff(cfg, Exec(cfg, st, ops[..|ops| - 1]), ops[|ops| - 1]);
    }
  }

  /** The iteration that asks the upstream resource for a pool and gets an exception. */
  predicate ExpansionThrows<A>(st: HostState<A>, op: Op<A>) {
    op.OpTake? && st.busy.Some? && st.free == [] && op.upstream.None?
  }

  ghost predicate NoExpansionThrows<A>(cfg: Config, st: HostState<A>, ops: seq<Op<A>>)
    requires cfg.Valid()
  {
    ops == [] ||
    (NoExpansionThrows(cfg, st, ops[..|ops| - 1])
     && !ExpansionThrows(Exec(cfg, st, ops[..|ops| - 1]), ops[|ops| - 1]))
  }

  lemma AbandonsIff<A>(cfg: Config, st: HostState<A>, op: Op<A>)
    requires cfg.Valid()
    ensures |Next(cfg, st, op).lost| == |st.lost| + if ExpansionThrows(st, op) then 1 else 0
  {
  }

  lemma {:induction false} NothingLostIff<A>(cfg: Config, st: HostState<A>, ops: seq<Op<A>>)
    requires cfg.Valid()
    ensures |Exec(cfg, st, ops).lost| == |st.lost| <==> NoExpansionThrows(cfg, st, ops)
    ensures |Exec(cfg, st, ops).lost| >= |st.lost|
  {
    if ops != [] {
      NothingLostIff(cfg, st, ops[..|ops| - 1]);
      AbandonsIff(cfg, Exec(cfg, st, ops[..|ops| - 1]), ops[|ops| - 1]);
    }
  }

  /** So the counter comes back to zero exactly when no growth of the run met a reservation that
      was overflowing and no expansion of the run threw: both are guards of single steps. */
  lemma QuiescentZeroIff<A>(cfg: Config, pools: seq<Addr>, ops: seq<Op<A>>)
    requires cfg.Valid()
    requires var st := Exec(cfg, InitialState(cfg, pools), ops);
             st.arenas == map[] && st.live == [] && st.pending == [] && st.busy.None?
    ensures var st0 := InitialState<A>(cfg, pools);
            Exec(cfg, st0, ops).charged == 0
            <==> NoOverlappingGrowth(cfg, st0, ops) && NoExpansionThrows(cfg, st0, ops)
  {
    QuiescentCounter(cfg, pools, ops);
    SlackZeroIff(cfg, InitialState<A>(cfg, pools), ops);
    NothingLostIff(cfg, InitialState<A>(cfg, pools), ops);
  }
}
