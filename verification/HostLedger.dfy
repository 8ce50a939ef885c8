/** The state of `fixed_size_host_memory_resource` and its atomic steps.

    A step is what one thread does between two points where another thread may run. Growing,
    shrinking, registering and releasing a reservation and dropping an allocation each hold
    `_mutex` throughout and are one step. `reserve` charges the counter without the mutex and
    registers the arena afterwards under it, so it is two steps with a `pending` amount between
    them. `allocate_multiple_blocks` keeps the mutex from its charge to its last block, but the
    lock-free charges of other threads can fall between its loop iterations, so each iteration
    is a step and `busy` is the critical section in progress.

    `A` stands for arena identities. */
module HostLedger {
  import opened Prelude
  import opened AtomicCounters

  type Addr = nat

  /** `_memory_limit`, `_memory_capacity`, `_block_size`, `_pool_size`. */
  datatype Config = Config(limit: nat, capacity: nat, blockSize: nat, poolSize: nat)
  {
    predicate Valid() {
      0 < blockSize && limit < WORD && capacity < WORD
    }

    function PoolBytes(): nat {
      blockSize * poolSize
    }
  }

  /** An arena's `_size` together with the `allocated_bytes` of its tracker. */
  datatype Arena = Arena(size: int, tracked: int)

  /** An allocation handle: its blocks, the bytes it was charged, the arena it drew from. */
  datatype Allocation<A> = Allocation(blocks: seq<Addr>, bytes: nat, arena: Option<A>)

  /** `allocate_multiple_blocks` inside its loop: blocks popped so far, blocks wanted, what was
      added to `_allocated_bytes`, and the counter value that addition produced. */
  datatype InFlight<A> = InFlight(taken: seq<Addr>, wanted: nat, charge: nat, post: int, arena: Option<A>)

  datatype HostState<A> = HostState(
    charged: int,                     // _allocated_bytes
    peak: int,                        // _peak_allocated_bytes
    arenas: map<A, Arena>,            // _active_reservations
    issued: set<A>,                   // every arena ever registered
    pending: seq<nat>,                // charged by reserve/reserve_upto, arena not registered yet
    pools: seq<Addr>,                 // _allocated_blocks
    free: seq<Addr>,                  // _free_blocks, last element popped first
    live: seq<Allocation<A>>,         // handles not destroyed yet
    lost: seq<Allocation<A>>,         // charges of allocations abandoned by an upstream exception
    returned: seq<Addr>,              // blocks given back through a handle's destructor
    busy: Option<InFlight<A>>)

  // ----- pool geometry -----

  function PoolBlocks(cfg: Config, base: Addr): (s: seq<Addr>)
    ensures |s| == cfg.poolSize
  {
    seq(cfg.poolSize, (i: nat) => base + i * cfg.blockSize)
  }

  /** Two ranges of one pool each do not overlap. */
  predicate Apart(cfg: Config, p: Addr, q: Addr) {
    RangesApart(p, q, cfg.PoolBytes(), cfg.PoolBytes())
  }

  /** What the upstream resource promises about the address of a new pool. */
  predicate FreshPool(cfg: Config, pools: seq<Addr>, base: Addr) {
    forall i :: 0 <= i < |pools| ==> Apart(cfg, pools[i], base)
  }

  /** Every block carved out of `pools`, in the order `expand_pool` pushed them. */
  function Carve(cfg: Config, pools: seq<Addr>): seq<Addr> {
    if pools == [] then [] else Carve(cfg, pools[..|pools| - 1]) + PoolBlocks(cfg, pools[|pools| - 1])
  }

  function InitialState<A>(cfg: Config, pools: seq<Addr>): HostState<A> {
    HostState(0, 0, map[], {}, [], pools, Carve(cfg, pools), [], [], [], None)
  }

  // ----- the amounts the code computes -----

  /** How much of an allocation of `total` bytes is charged to `_allocated_bytes` when its
      reservation has `size` bytes, `pre` of them in use. */
  function OverflowCharge(total: nat, size: int, pre: int): int {
    var post := pre + total;
    if post <= size then 0
    else if pre < size then post - size
    else total
  }

  /** How much dropping `bytes` gives back when the reservation has `size` bytes, `pre` in use. */
  function OverflowCredit(bytes: nat, size: int, pre: int): int {
    var post := pre - bytes;
    if pre <= size then 0
    else if post < size then pre - size
    else bytes
  }

  // ----- the steps -----

  /** `do_reserve`: the counter part of `reserve`. */
  function ChargeExact<A>(cfg: Config, st: HostState<A>, bytes: nat): HostState<A>
    requires cfg.Valid()
  {
    var b := AlignUp(bytes, cfg.blockSize);
    if Fits(st.charged, b, cfg.limit) then
      st.(charged := st.charged + b, peak := Max(st.peak, st.charged + b), pending := st.pending + [b])
    else st
  }

  /** `do_reserve_upto`: the counter part of `reserve_upto`. `asked` is what the retries of
      `add_bounded` have cut the request down to by the time it commits: under interference it may
      be less than both the request and the room. */
  function ChargeUpTo<A>(cfg: Config, st: HostState<A>, bytes: nat, asked: nat): HostState<A>
    requires cfg.Valid()
  {
    var b := Min(asked, Granted(st.charged, AlignUp(bytes, cfg.blockSize), cfg.limit));
    st.(charged := st.charged + b,
        peak := if b > 0 then Max(st.peak, st.charged + b) else st.peak,
        pending := st.pending + [b])
  }

  /** `register_reservation` for the `index`-th pending charge, with a new arena. */
  function Register<A(==)>(st: HostState<A>, index: nat, arena: A): HostState<A> {
    if st.busy.None? && index < |st.pending| && arena !in st.issued then
      st.(arenas := st.arenas[arena := Arena(st.pending[index], 0)],
          issued := st.issued + {arena},
          pending := RemoveAt(st.pending, index))
    else st
  }

  function Grow<A(==)>(cfg: Config, st: HostState<A>, arena: A, bytes: nat): HostState<A>
    requires cfg.Valid()
  {
    var b := AlignUp(bytes, cfg.blockSize);
    if st.busy.None? && arena in st.arenas && Fits(st.charged, b, cfg.limit) then
      st.(charged := st.charged + b,
          peak := Max(st.peak, st.charged + b),
          arenas := st.arenas[arena := st.arenas[arena].(size := st.arenas[arena].size + b)])
    else st
  }

  function Shrink<A(==)>(st: HostState<A>, arena: A): HostState<A> {
    if st.busy.None? && arena in st.arenas then
      var current := Max(0, st.arenas[arena].tracked);
      var size := st.arenas[arena].size;
      if current < size then
        st.(charged := SubWord(st.charged, size - current),
            arenas := st.arenas[arena := st.arenas[arena].(size := current)])
      else st
    else st
  }

  function Release<A(==)>(st: HostState<A>, arena: A): HostState<A> {
    if st.busy.None? && arena in st.arenas then
      var current := Max(0, st.arenas[arena].tracked);
      var size := st.arenas[arena].size;
      st.(charged := SubWord(st.charged, if size > current then size - current else 0),
          arenas := st.arenas - {arena})
    else st
  }

  /** What an allocation of `total` bytes against `arena` adds to the counter. */
  function BeginCharge<A(==)>(st: HostState<A>, total: nat, arena: Option<A>): int {
    if arena.Some? && arena.value in st.arenas then
      OverflowCharge(total, st.arenas[arena.value].size, st.arenas[arena.value].tracked)
    else total
  }

  function AddTracked<A(==)>(arenas: map<A, Arena>, arena: Option<A>, bytes: int): map<A, Arena> {
    if arena.Some? && arena.value in arenas then
      arenas[arena.value := arenas[arena.value].(tracked := arenas[arena.value].tracked + bytes)]
    else arenas
  }

  /** The reservation handed to `allocate_multiple_blocks` is not registered here. */
  predicate Unusable<A(==)>(st: HostState<A>, arena: Option<A>) {
    arena.Some? && arena.value !in st.arenas
  }

  /** `allocate_multiple_blocks` up to the capacity check. */
  function Begin<A(==)>(cfg: Config, st: HostState<A>, bytes: nat, arena: Option<A>): HostState<A>
    requires cfg.Valid()
  {
    if st.busy.Some? || bytes == 0 || Unusable(st, arena) then st
    else
      var total := AlignUp(bytes, cfg.blockSize);
      var charge := BeginCharge(st, total, arena);
      if Fits(st.charged, charge, cfg.capacity) then
        st.(charged := st.charged + charge,
            arenas := AddTracked(st.arenas, arena, total),
            busy := Some(InFlight([], CeilDiv(bytes, cfg.blockSize), charge, st.charged + charge, arena)))
      else st
  }

  function RollBack<A(==)>(cfg: Config, st: HostState<A>, b: InFlight<A>): HostState<A> {
    st.(busy := None,
        free := st.free + b.taken,
        charged := SubWord(st.charged, b.charge),
        arenas := AddTracked(st.arenas, b.arena, -(b.wanted * cfg.blockSize)))
  }

  function PopBlock<A>(cfg: Config, st: HostState<A>, b: InFlight<A>): HostState<A>
    requires st.free != []
  {
    var taken := b.taken + [st.free[|st.free| - 1]];
    var st2 := st.(free := st.free[..|st.free| - 1]);
    if |taken| < b.wanted then st2.(busy := Some(b.(taken := taken)))
    else
      st2.(busy := None,
           peak := Max(st.peak, b.post),
           live := st.live + [Allocation(taken, b.wanted * cfg.blockSize, b.arena)])
  }

  /** One iteration of the block loop, with the answer the upstream resource would give to
      `expand_pool`: an address, or an exception. The last iteration also creates the handle. */
  function Take<A(==)>(cfg: Config, st: HostState<A>, upstream: Option<Addr>): HostState<A>
    requires cfg.Valid()
  {
    if st.busy.None? then st
    else
      var b := st.busy.value;
      if st.free == [] && upstream.None? then
        st.(busy := None, lost := st.lost + [Allocation(b.taken, b.wanted * cfg.blockSize, b.arena)])
      else if st.free == [] && !FreshPool(cfg, st.pools, upstream.value) then st
      else
        var st1 := if st.free == [] then
                     st.(pools := st.pools + [upstream.value], free := PoolBlocks(cfg, upstream.value))
                   else st;
        if st1.free == [] then RollBack(cfg, st1, b)
        else PopBlock(cfg, st1, b)
  }

  /** The destructor of the `index`-th live handle: `return_allocated_chunks`. Its blocks are
      counted back but not put on the free list. */
  function Drop<A(==)>(cfg: Config, st: HostState<A>, index: nat): HostState<A> {
    if st.busy.None? && index < |st.live| then
      var x := st.live[index];
      var bytes := |x.blocks| * cfg.blockSize;
      var credit := if x.arena.Some? && x.arena.value in st.arenas then
                      OverflowCredit(bytes, st.arenas[x.arena.value].size, st.arenas[x.arena.value].tracked)
                    else bytes;
      st.(charged := SubWord(st.charged, credit),
          arenas := AddTracked(st.arenas, x.arena, -bytes),
          live := RemoveAt(st.live, index),
          returned := st.returned + x.blocks)
    else st
  }

  datatype Op<A> =
    | OpChargeExact(bytes: nat)
    | OpChargeUpTo(bytes: nat, asked: nat)
    | OpRegister(index: nat, arena: A)
    | OpGrow(arena: A, bytes: nat)
    | OpShrink(arena: A)
    | OpRelease(arena: A)
    | OpBegin(bytes: nat, from: Option<A>)
    | OpTake(upstream: Option<Addr>)
    | OpDrop(index: nat)

  function Next<A(==)>(cfg: Config, st: HostState<A>, op: Op<A>): HostState<A>
    requires cfg.Valid()
  {
    match op
    case OpChargeExact(bytes) => ChargeExact(cfg, st, bytes)
    case OpChargeUpTo(bytes, asked) => ChargeUpTo(cfg, st, bytes, asked)
    case OpRegister(index, arena) => Register(st, index, arena)
    case OpGrow(arena, bytes) => Grow(cfg, st, arena, bytes)
    case OpShrink(arena) => Shrink(st, arena)
    case OpRelease(arena) => Release(st, arena)
    case OpBegin(bytes, arena) => Begin(cfg, st, bytes, arena)
    case OpTake(upstream) => Take(cfg, st, upstream)
    case OpDrop(index) => Drop(cfg, st, index)
  }

  function Exec<A(==)>(cfg: Config, st: HostState<A>, ops: seq<Op<A>>): HostState<A>
    requires cfg.Valid()
  {
    if ops == [] then st else Next(cfg, Exec(cfg, st, ops[..|ops| - 1]), ops[|ops| - 1])
  }

  /** The bytes a growing reservation is charged a second time: the part of the growth that only
      covers what was already overflowing, and so already charged. */
  function DoubleCharge<A(==)>(cfg: Config, st: HostState<A>, op: Op<A>): nat
    requires cfg.Valid()
  {
    if op.OpGrow? && st.busy.None? && op.arena in st.arenas
       && Fits(st.charged, AlignUp(op.bytes, cfg.blockSize), cfg.limit)
    then Min(AlignUp(op.bytes, cfg.blockSize), Max(0, st.arenas[op.arena].tracked - st.arenas[op.arena].size))
    else 0
  }

  /** The double charges of a whole run. */
  function Slack<A(==)>(cfg: Config, st: HostState<A>, ops: seq<Op<A>>): nat
    requires cfg.Valid()
  {
    if ops == [] then 0
    else
      var before := ops[..|ops| - 1];
      Slack(cfg, st, before) + DoubleCharge(cfg, Exec(cfg, st, before), ops[|ops| - 1])
  }
}
