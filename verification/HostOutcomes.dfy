/** What every public operation of the host resource does for its caller, told by the bytes in
    force rather than by trackers, and how reservations and handles that come and go balance over a
    run. */
module HostOutcomes {
  import opened Prelude
  import opened AtomicCounters
  import opened HostLedger
  import opened HostAccounting
  import opened HostCalls
  import opened HostGuarantees

  /** The bytes of all charges in force that were drawn from an arena. */
  ghost function InUse<A>(cfg: Config, st: HostState<A>, arena: A): int {
    Held(cfg, st, DrawnFrom(arena))
  }

  // ----- reservations -----

  /** `reserve` of `bytes`, rounded up to `n`: exactly if `n` fits under the limit, a new arena of
      `n` bytes with nothing drawn from it, and `n` bytes charged. */
  lemma ReserveMeans<A>(cfg: Config, st: HostState<A>, bytes: nat, n: nat, arena: A)
    requires cfg.Valid() && st.busy.None? && arena !in st.issued && Rounded(n, bytes, cfg.blockSize)
    ensures Reserve(cfg, st, bytes, arena)
            == if st.charged + n <= cfg.limit then
                 st.(charged := st.charged + n, peak := Max(st.peak, st.charged + n),
                     arenas := st.arenas[arena := Arena(n, 0)], issued := st.issued + {arena})
               else st
  {
    RoundedIsAlignUp(n, bytes, cfg.blockSize);
    var st1 := ChargeExact(cfg, st, bytes);
    if |st1.pending| > |st.pending| {
      assert RemoveAt(st1.pending, |st.pending|) == st.pending;
    }
  }

  /** `reserve_upto` of `bytes`, rounded up to `n`, alone: an arena of `n` bytes or of what is left
      under the limit. */
  lemma ReserveUpToMeans<A>(cfg: Config, st: HostState<A>, bytes: nat, n: nat, arena: A)
    requires cfg.Valid() && st.busy.None? && arena !in st.issued && Rounded(n, bytes, cfg.blockSize)
    ensures var g := Min(n, Max(0, cfg.limit - st.charged));
            ReserveUpTo(cfg, st, bytes, arena)
            == st.(charged := st.charged + g, peak := if g > 0 then Max(st.peak, st.charged + g) else st.peak,
                   arenas := st.arenas[arena := Arena(g, 0)], issued := st.issued + {arena})
  {
    RoundedIsAlignUp(n, bytes, cfg.blockSize);
    var st1 := ChargeUpTo(cfg, st, bytes, n);
    assert RemoveAt(st1.pending, |st.pending|) == st.pending;
  }

  /** Among other threads the charge is any part of that, and it becomes the arena's size. */
  lemma ChargeUpToMeans<A>(cfg: Config, st: HostState<A>, bytes: nat, asked: nat, n: nat)
    requires cfg.Valid() && Rounded(n, bytes, cfg.blockSize)
    ensures var st', g := ChargeUpTo(cfg, st, bytes, asked), Min(asked, Min(n, Max(0, cfg.limit - st.charged)));
            st'.charged == st.charged + g && st'.pending == st.pending + [g]
  {
    RoundedIsAlignUp(n, bytes, cfg.blockSize);
  }

  /** A growth by `bytes`, rounded up to `n`: exactly if `n` fits under the limit, the arena gets `n`
      bytes larger and the counter `n` bytes higher. */
  lemma GrowMeans<A>(cfg: Config, st: HostState<A>, arena: A, bytes: nat, n: nat)
    requires cfg.Valid() && st.busy.None? && arena in st.arenas && Rounded(n, bytes, cfg.blockSize)
    ensures Grow(cfg, st, arena, bytes)
            == if st.charged + n <= cfg.limit then
                 st.(charged := st.charged + n, peak := Max(st.peak, st.charged + n),
                     arenas := st.arenas[arena := Arena(st.arenas[arena].size + n, st.arenas[arena].tracked)])
               else st
  {
    RoundedIsAlignUp(n, bytes, cfg.blockSize);
  }

  /** So after a growth of `n` bytes exactly the requests that fit in the old rest and `n` bytes
      more fit in the reservation. */
  lemma GrowthFits<A>(cfg: Config, st: HostState<A>, slack: int, arena: A, bytes: nat, n: nat, request: nat)
    requires Accounted(cfg, st, slack) && st.busy.None? && arena in st.arenas && Rounded(n, bytes, cfg.blockSize)
    requires st.charged + n <= cfg.limit
    ensures FitsReservation(cfg, Grow(cfg, st, arena, bytes), request, arena)
            <==> 0 < request && AlignUp(request, cfg.blockSize) <= st.arenas[arena].size - InUse(cfg, st, arena) + n
  {
    GrowMeans(cfg, st, arena, bytes, n);
  }

  /** A shrink leaves the bytes in use reserved, no more, and gives the rest back. */
  lemma ShrinkMeans<A>(cfg: Config, st: HostState<A>, slack: int, arena: A)
    requires Accounted(cfg, st, slack) && st.busy.None? && arena in st.arenas
    ensures var a := st.arenas[arena];
            var size := Min(a.size, InUse(cfg, st, arena));
            Shrink(st, arena) == st.(charged := st.charged - (a.size - size), arenas := st.arenas[arena := a.(size := size)])
  {
    ArenaCovered(cfg, st, slack, arena);
    assert st.arenas[arena := st.arenas[arena]] == st.arenas;
  }

  /** A release unregisters the arena, whatever is in use, and gives back what is not. */
  lemma ReleaseMeans<A>(cfg: Config, st: HostState<A>, slack: int, arena: A)
    requires Accounted(cfg, st, slack) && st.busy.None? && arena in st.arenas
    ensures Release(st, arena)
            == st.(charged := st.charged - Max(0, st.arenas[arena].size - InUse(cfg, st, arena)),
                   arenas := st.arenas - {arena})
  {
    ArenaCovered(cfg, st, slack, arena);
  }

  // ----- allocations -----

  /** What `more` bytes drawn from an arena, or given back to it if negative, do to the counter:
      whatever they do to the larger of its size and its use. */
  ghost function FootprintStep<A>(cfg: Config, st: HostState<A>, arena: Option<A>, more: int): int {
    if arena.Some? && arena.value in st.arenas then
      var size, used := st.arenas[arena.value].size, InUse(cfg, st, arena.value);
      Max(size, used + more) - Max(size, used)
    else more
  }

  /** An allocation is served exactly if its reservation is registered, what it adds to the counter
      fits under the capacity, and free blocks and new pools cover it. */
  lemma AllocationServedIff<A>(cfg: Config, st: HostState<A>, slack: int, bytes: nat, n: nat, arena: Option<A>,
                               upstream: seq<Option<Addr>>)
    requires Accounted(cfg, st, slack) && st.busy.None? && Rounded(n, bytes, cfg.blockSize)
    ensures Allocate(cfg, st, bytes, arena, upstream).1.Handle?
            <==> && bytes > 0 && (arena.Some? ==> arena.value in st.arenas)
                 && st.charged + FootprintStep(cfg, st, arena, n) <= cfg.capacity
                 && (|st.free| + Expansions(cfg, st.pools, upstream) * cfg.poolSize) * cfg.blockSize >= n
  {
    RoundedIsAlignUp(n, bytes, cfg.blockSize);
    AllocationEnds(cfg, st, bytes, arena, upstream);
    if arena.Some? && arena.value in st.arenas { ArenaCovered(cfg, st, slack, arena.value); }
    var have, want := |st.free| + Expansions(cfg, st.pools, upstream) * cfg.poolSize, CeilDiv(bytes, cfg.blockSize);
    if have < want { MulMonotone(have + 1, want, cfg.blockSize); } else { MulMonotone(want, have, cfg.blockSize); }
    assert (have + 1) * cfg.blockSize == have * cfg.blockSize + cfg.blockSize;
  }

  /** It then gets `n` bytes in blocks, charged to its arena, and nothing else has changed but free
      blocks and pools. */
  lemma AllocationMeans<A>(cfg: Config, st: HostState<A>, slack: int, bytes: nat, n: nat, arena: Option<A>,
                           upstream: seq<Option<Addr>>)
    requires Accounted(cfg, st, slack) && st.busy.None? && Rounded(n, bytes, cfg.blockSize)
    requires Allocate(cfg, st, bytes, arena, upstream).1.Handle?
    ensures var (st', out) := Allocate(cfg, st, bytes, arena, upstream);
            && out.allocation.bytes == n == |out.allocation.blocks| * cfg.blockSize && out.allocation.arena == arena
            && st' == st.(charged := st.charged + FootprintStep(cfg, st, arena, n),
                          peak := Max(st.peak, st'.charged),
                          arenas := AddTracked(st.arenas, arena, n),
                          live := st.live + [out.allocation],
                          free := st'.free, pools := st'.pools)
  {
    RoundedIsAlignUp(n, bytes, cfg.blockSize);
    AllocationEnds(cfg, st, bytes, arena, upstream);
    BeginCharged(cfg, st, slack, bytes, arena);
    TakeAllMeans(cfg, Begin(cfg, st, bytes, arena), upstream);
  }

  /** Dropping a handle takes its bytes off its arena and off the counter, and out of circulation
      its blocks. */
  lemma DropMeans<A>(cfg: Config, st: HostState<A>, slack: int, index: nat)
    requires Accounted(cfg, st, slack) && st.busy.None? && index < |st.live|
    ensures var x := st.live[index];
            Drop(cfg, st, index)
            == st.(charged := st.charged + FootprintStep(cfg, st, x.arena, 0 - x.bytes),
                   arenas := AddTracked(st.arenas, x.arena, 0 - x.bytes),
                   live := st.live[..index] + st.live[index + 1..],
                   returned := st.returned + x.blocks)
  {
    DropCredit(cfg, st, slack, index);
  }

  // ----- which blocks an allocation gets -----

  function Reversed(s: seq<Addr>): seq<Addr> {
    if s == [] then [] else [s[|s| - 1]] + Reversed(s[..|s| - 1])
  }

  /** The blocks to be had, in their order: free ones last in first out, then those of the pools the
      upstream resource adds. */
  function Supply(cfg: Config, pools: seq<Addr>, free: seq<Addr>, upstream: seq<Option<Addr>>): seq<Addr>
    decreases |upstream|
  {
    Reversed(free) +
    if upstream == [] || upstream[0].None? then []
    else if !FreshPool(cfg, pools, upstream[0].value) then Supply(cfg, pools, [], upstream[1..])
    else
      var base := upstream[0].value;
      Supply(cfg, pools + [base], seq(cfg.poolSize, (i: nat) => base + i * cfg.blockSize), upstream[1..])
  }

  /** The free list an iteration pops from, after a possible expansion, and the pools then. */
  function Stocked<A>(cfg: Config, st: HostState<A>, answer: Option<Addr>): (seq<Addr>, seq<Addr>) {
    if st.free == [] && answer.Some? then (PoolBlocks(cfg, answer.value), st.pools + [answer.value]) else (st.free, st.pools)
  }

  lemma SupplyPops(cfg: Config, pools: seq<Addr>, free: seq<Addr>, upstream: seq<Option<Addr>>)
    requires free != []
    ensures Supply(cfg, pools, free, upstream)
            == [free[|free| - 1]] + Supply(cfg, pools, free[..|free| - 1], upstream)
  {
  }

  lemma SupplyExpands(cfg: Config, pools: seq<Addr>, upstream: seq<Option<Addr>>)
    requires upstream != [] && upstream[0].Some?
    ensures Supply(cfg, pools, [], upstream)
            == if FreshPool(cfg, pools, upstream[0].value)
               then Supply(cfg, pools + [upstream[0].value], PoolBlocks(cfg, upstream[0].value), upstream[1..])
               else Supply(cfg, pools, [], upstream[1..])
  {
    var base := upstream[0].value;
    assert seq(cfg.poolSize, (i: nat) => base + i * cfg.blockSize) == PoolBlocks(cfg, base);
  }

  /** One iteration that gets a block pops it from there. */
  lemma IterationPops<A>(cfg: Config, st: HostState<A>, answer: Option<Addr>)
    requires cfg.Valid() && st.busy.Some? && Refilled(cfg, st, answer) > 0
    ensures var st', (free, pools) := Take(cfg, st, answer), Stocked(cfg, st, answer);
            && free != []
            && st'.free == free[..|free| - 1] && st'.pools == pools
            && (st'.busy.Some? ==> st'.busy.value == st.busy.value.(taken := st.busy.value.taken + [free[|free| - 1]]))
            && (st'.busy.None? ==> st'.live != [] && st'.live[|st'.live| - 1].blocks == st.busy.value.taken + [free[|free| - 1]])
  {
  }

  /** The answer of the upstream resource an iteration uses up, and those left after it. */
  function Answer<A>(st: HostState<A>, upstream: seq<Option<Addr>>): (Option<Addr>, seq<Option<Addr>>) {
    if st.free == [] && upstream != [] then (upstream[0], upstream[1..]) else (None, upstream)
  }

  /** So it takes the first block of the supply. */
  lemma IterationSupplied<A>(cfg: Config, st: HostState<A>, upstream: seq<Option<Addr>>)
    requires cfg.Valid() && st.busy.Some? && Refilled(cfg, st, Answer(st, upstream).0) > 0
    ensures var (answer, rest) := Answer(st, upstream);
            var (free, pools) := Stocked(cfg, st, answer);
            free != [] && Supply(cfg, st.pools, st.free, upstream)
                          == [free[|free| - 1]] + Supply(cfg, pools, free[..|free| - 1], rest)
  {
    var (answer, rest) := Answer(st, upstream);
    var (free, pools) := Stocked(cfg, st, answer);
    if st.free == [] { SupplyExpands(cfg, st.pools, upstream); }
    SupplyPops(cfg, pools, free, rest);
  }

  predicate ServedInOrder(taken: seq<Addr>, wanted: nat, supply: seq<Addr>, blocks: seq<Addr>) {
    && |taken| <= wanted <= |taken| + |supply|
    && blocks == taken + supply[..wanted - |taken|]
  }

  lemma OneMoreServed(taken: seq<Addr>, wanted: nat, x: Addr, supply: seq<Addr>, blocks: seq<Addr>)
    requires ServedInOrder(taken + [x], wanted, supply, blocks)
    ensures ServedInOrder(taken, wanted, [x] + supply, blocks)
  {
    assert taken + ([x] + supply)[..wanted - |taken|] == taken + [x] + supply[..wanted - |taken| - 1];
  }

  /** An iteration without a block ends the loop, or found an answer that is none. */
  lemma IterationStalls<A>(cfg: Config, st: HostState<A>, upstream: seq<Option<Addr>>)
    requires cfg.Valid() && st.busy.Some? && Refilled(cfg, st, Answer(st, upstream).0) == 0
    requires |st.busy.value.taken| < st.busy.value.wanted && TakeAll(cfg, st, upstream).1.Handle?
    ensures st.free == [] && upstream != [] && Take(cfg, st, upstream[0]) == st
    ensures Supply(cfg, st.pools, st.free, upstream) == Supply(cfg, st.pools, st.free, upstream[1..])
  {
    OneIteration(cfg, st, Answer(st, upstream).0);
    if upstream != [] && upstream[0].Some? { SupplyExpands(cfg, st.pools, upstream); }
  }

  /** An allocation gets the blocks it is short of from the head of the supply. */
  lemma {:induction false} BlocksInOrder<A>(cfg: Config, st: HostState<A>, upstream: seq<Option<Addr>>)
    requires cfg.Valid() && st.busy.Some? && |st.busy.value.taken| < st.busy.value.wanted
    requires TakeAll(cfg, st, upstream).1.Handle?
    ensures ServedInOrder(st.busy.value.taken, st.busy.value.wanted, Supply(cfg, st.pools, st.free, upstream),
                          TakeAll(cfg, st, upstream).1.allocation.blocks)
    decreases |upstream|, st.busy.value.wanted - |st.busy.value.taken|
  {
    var (answer, rest) := Answer(st, upstream);
    var st', b := Take(cfg, st, answer), st.busy.value;
    if Refilled(cfg, st, answer) > 0 {
      OneIteration(cfg, st, answer);
      IterationPops(cfg, st, answer);
      IterationSupplied(cfg, st, upstream);
      var free := Stocked(cfg, st, answer).0;
      var x, supply := free[|free| - 1], Supply(cfg, st'.pools, st'.free, rest);
      var blocks := TakeAll(cfg, st, upstream).1.allocation.blocks;
      if st'.busy.Some? {
        BlocksInOrder(cfg, st', rest);
      } else {
        assert ServedInOrder(b.taken + [x], b.wanted, supply, blocks);
      }
      OneMoreServed(b.taken, b.wanted, x, supply, blocks);
    } else {
      IterationStalls(cfg, st, upstream);
      BlocksInOrder(cfg, st, rest);
    }
  }

  /** For a whole call: free blocks last in first out, then those of new pools in the same way. */
  lemma AllocationBlocks<A>(cfg: Config, st: HostState<A>, bytes: nat, arena: Option<A>, upstream: seq<Option<Addr>>)
    requires cfg.Valid() && st.busy.None? && Allocate(cfg, st, bytes, arena, upstream).1.Handle?
    ensures var blocks, supply := Allocate(cfg, st, bytes, arena, upstream).1.allocation.blocks,
                                  Supply(cfg, st.pools, st.free, upstream);
            blocks <= supply && |blocks| == CeilDiv(bytes, cfg.blockSize)
  {
    AllocationEnds(cfg, st, bytes, arena, upstream);
    BlocksInOrder(cfg, Begin(cfg, st, bytes, arena), upstream);
  }

  // ----- comings and goings over a run -----

  /** What a step can be: a charge made for a reservation, its registration, a release; the head of
      an allocation, its end, a handle handed out, a handle dropped. */
  datatype Event = Charges | Registers | Releases | Begins | Ends | Delivers | Drops

  /** An iteration of the block loop that gets a block, and no more are wanted. */
  predicate TakesLast<A>(cfg: Config, st: HostState<A>, upstream: Option<Addr>) {
    && st.busy.Some? && Refilled(cfg, st, upstream) > 0
    && |st.busy.value.taken| + 1 >= st.busy.value.wanted
  }

  /** An iteration that gets none, because the expansion throws or adds nothing. */
  predicate TakesNone<A>(cfg: Config, st: HostState<A>, upstream: Option<Addr>) {
    && st.busy.Some? && Refilled(cfg, st, upstream) == 0
    && (upstream.Some? ==> FreshPool(cfg, st.pools, upstream.value))
  }

  predicate Happens<A(==)>(cfg: Config, st: HostState<A>, op: Op<A>, e: Event)
    requires cfg.Valid()
  {
    match e
    case Charges => (op.OpChargeExact? && st.charged + AlignUp(op.bytes, cfg.blockSize) <= cfg.limit) || op.OpChargeUpTo?
    case Registers => op.OpRegister? && st.busy.None? && op.index < |st.pending| && op.arena !in st.issued
    case Releases => op.OpRelease? && st.busy.None? && op.arena in st.arenas
    case Begins => op.OpBegin? && st.busy.None? && Passes(cfg, st, op.bytes, op.from)
    case Ends => op.OpTake? && (TakesLast(cfg, st, op.upstream) || TakesNone(cfg, st, op.upstream))
    case Delivers => op.OpTake? && TakesLast(cfg, st, op.upstream)
    case Drops => op.OpDrop? && st.busy.None? && op.index < |st.live|
  }

  /** How often it happens in a run. */
  function Count<A(==)>(cfg: Config, st: HostState<A>, ops: seq<Op<A>>, e: Event): nat
    requires cfg.Valid()
  {
    if ops == [] then 0
    else
      Count(cfg, st, ops[..|ops| - 1], e) + if Happens(cfg, Exec(cfg, st, ops[..|ops| - 1]), ops[|ops| - 1], e) then 1 else 0
  }

  function InProgress<A>(st: HostState<A>): nat {
    if st.busy.Some? then 1 else 0
  }

  function Once<A(==)>(cfg: Config, st: HostState<A>, op: Op<A>, e: Event): nat
    requires cfg.Valid()
  {
    if Happens(cfg, st, op, e) then 1 else 0
  }

  lemma ArenasStay<A>(cfg: Config, st: HostState<A>, op: Op<A>)
    requires cfg.Valid() && !op.OpRegister? && !op.OpRelease?
    ensures Next(cfg, st, op).arenas.Keys == st.arenas.Keys
  {
  }

  lemma ReleasedKeys<A>(st: HostState<A>, arena: A)
    ensures Release(st, arena).arenas.Keys == if st.busy.None? then st.arenas.Keys - {arena} else st.arenas.Keys
  {
    assert arena in st.arenas ==> (st.arenas - {arena}).Keys == st.arenas.Keys - {arena};
  }

  lemma RegisteredKeys<A>(st: HostState<A>, index: nat, arena: A)
    ensures Register(st, index, arena).arenas.Keys
            == if st.busy.None? && index < |st.pending| && arena !in st.issued then st.arenas.Keys + {arena} else st.arenas.Keys
  {
  }

  lemma ArenasMove<A>(cfg: Config, st: HostState<A>, op: Op<A>)
    requires cfg.Valid() && st.arenas.Keys <= st.issued
    ensures |Next(cfg, st, op).arenas.Keys| == |st.arenas.Keys| + Once(cfg, st, op, Registers) - Once(cfg, st, op, Releases)
  {
    match op
    case OpRelease(arena) => ReleasedKeys(st, arena);
    case OpRegister(index, arena) => RegisteredKeys(st, index, arena);
    case _ => ArenasStay(cfg, st, op);
  }

  lemma PendingMoves<A>(cfg: Config, st: HostState<A>, op: Op<A>)
    requires cfg.Valid()
    ensures |Next(cfg, st, op).pending| == |st.pending| + Once(cfg, st, op, Charges) - Once(cfg, st, op, Registers)
  {
  }

  lemma TakeMoves<A>(cfg: Config, st: HostState<A>, slack: int, upstream: Option<Addr>)
    requires Accounted(cfg, st, slack)
    ensures var st', op: Op<A> := Take(cfg, st, upstream), OpTake(upstream);
            && |st'.live| == |st.live| + Once(cfg, st, op, Delivers)
            && InProgress(st') == InProgress(st) - Once(cfg, st, op, Ends)
  {
    if st.busy.Some? { OneIteration(cfg, st, upstream); }
  }

  lemma HandlesMove<A>(cfg: Config, st: HostState<A>, slack: int, op: Op<A>)
    requires Accounted(cfg, st, slack)
    ensures |Next(cfg, st, op).live| == |st.live| + Once(cfg, st, op, Delivers) - Once(cfg, st, op, Drops)
    ensures InProgress(Next(cfg, st, op)) == InProgress(st) + Once(cfg, st, op, Begins) - Once(cfg, st, op, Ends)
  {
    if op.OpTake? { TakeMoves(cfg, st, slack, op.upstream); }
  }

  /** After any run the charges without an arena are those made and not registered, the arenas those
      registered and not released, the handles those handed out and not dropped; and an allocation is
      in progress exactly if one more was begun than ended. */
  lemma {:induction false} RunBalances<A>(cfg: Config, pools: seq<Addr>, ops: seq<Op<A>>)
    requires cfg.Valid()
    ensures var st0 := InitialState<A>(cfg, pools);
            var st := Exec(cfg, st0, ops);
            && |st.pending| == Count(cfg, st0, ops, Charges) - Count(cfg, st0, ops, Registers)
            && |st.arenas.Keys| == Count(cfg, st0, ops, Registers) - Count(cfg, st0, ops, Releases)
            && |st.live| == Count(cfg, st0, ops, Delivers) - Count(cfg, st0, ops, Drops)
            && InProgress(st) == Count(cfg, st0, ops, Begins) - Count(cfg, st0, ops, Ends)
  {
    if ops != [] {
      var before, op := ops[..|ops| - 1], ops[|ops| - 1];
      var st0 := InitialState<A>(cfg, pools);
      var st, slack := Exec(cfg, st0, before), Slack(cfg, st0, before);
      RunBalances(cfg, pools, before);
      RunAccounted(cfg, pools, before);
      PendingMoves(cfg, st, op);
      ArenasMove(cfg, st, op);
      HandlesMove(cfg, st, slack, op);
    }
  }

  /** Every charge was registered and every arena released, every allocation begun has ended, and
      every handle handed out was dropped. */
  predicate AllGivenBack<A(==)>(cfg: Config, st0: HostState<A>, ops: seq<Op<A>>)
    requires cfg.Valid()
  {
    && Count(cfg, st0, ops, Charges) == Count(cfg, st0, ops, Registers) == Count(cfg, st0, ops, Releases)
    && Count(cfg, st0, ops, Delivers) == Count(cfg, st0, ops, Drops)
    && Count(cfg, st0, ops, Begins) == Count(cfg, st0, ops, Ends)
  }

  /** Once everything taken has been given back, in any order, no reservation and no handle is left;
      the counter is what growths charged twice and upstream exceptions left behind, so it is zero
      exactly when no growth met an overflowing reservation and no expansion threw. */
  lemma GivenBack<A>(cfg: Config, pools: seq<Addr>, ops: seq<Op<A>>)
    requires cfg.Valid() && AllGivenBack(cfg, InitialState(cfg, pools), ops)
    ensures var st0 := InitialState<A>(cfg, pools);
            var st := Exec(cfg, st0, ops);
            && st.arenas == map[] && st.live == [] && st.pending == [] && st.busy.None?
            && st.charged == Slack(cfg, st0, ops) + SeqSum(st.lost, AllBytes())
            && (st.charged == 0 <==> NoOverlappingGrowth(cfg, st0, ops) && NoExpansionThrows(cfg, st0, ops))
  {
    RunBalances(cfg, pools, ops);
    assert Exec(cfg, InitialState<A>(cfg, pools), ops).arenas == map[];
    QuiescentCounter(cfg, pools, ops);
    QuiescentZeroIff(cfg, pools, ops);
  }
}
