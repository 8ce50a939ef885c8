/** The public operations of the host resource as sequences of its atomic steps, and what the
    accounting invariant gives their callers. */
module HostCalls {
  import opened Prelude
  import opened AtomicCounters
  import opened HostLedger

  /** How `allocate_multiple_blocks` can end. */
  datatype Outcome<A> =
    | EmptyHandle                          // zero bytes asked for
    | BadReservation                       // "reservation has been freed already"
    | OverCapacity                         // null handle: the capacity check refused
    | OutOfBlocks                          // rolled back and threw: the expansion added no block
    | UpstreamThrew                        // the upstream exception passed through
    | Handle(allocation: Allocation<A>)

  /** What the last iteration reports. */
  function Ending<A>(st: HostState<A>, st': HostState<A>): Outcome<A> {
    if |st'.live| > |st.live| then Handle(st'.live[|st.live|])
    else if |st'.lost| > |st.lost| then UpstreamThrew
    else OutOfBlocks
  }

  /** The block loop: `upstream` lists the answers to its calls of `expand_pool`, an exception
      once the list is used up. */
  function TakeAll<A(==)>(cfg: Config, st: HostState<A>, upstream: seq<Option<Addr>>): (HostState<A>, Outcome<A>)
    requires cfg.Valid()
    decreases |upstream|, if st.busy.Some? then Max(0, st.busy.value.wanted - |st.busy.value.taken|) else 0
  {
    if st.busy.None? then (st, EmptyHandle)
    else
      var asking := st.free == [] && upstream != [];
      var st' := Take(cfg, st, if asking then upstream[0] else None);
      if st'.busy.Some? then TakeAll(cfg, st', if asking then upstream[1..] else upstream)
      else (st', Ending(st, st'))
  }

  /** `allocate_multiple_blocks` on its own. */
  function Allocate<A(==)>(cfg: Config, st: HostState<A>, bytes: nat, arena: Option<A>, upstream: seq<Option<Addr>>)
    : (HostState<A>, Outcome<A>)
    requires cfg.Valid()
  {
    if bytes == 0 then (st, EmptyHandle)
    else if Unusable(st, arena) then (st, BadReservation)
    else
      var st1 := Begin(cfg, st, bytes, arena);
      if st1.busy.None? then (st, OverCapacity) else TakeAll(cfg, st1, upstream)
  }

  /** `reserve` on its own: the counter charge, then the registration of the new arena. */
  function Reserve<A(==)>(cfg: Config, st: HostState<A>, bytes: nat, arena: A): HostState<A>
    requires cfg.Valid()
  {
    var st1 := ChargeExact(cfg, st, bytes);
    if |st1.pending| > |st.pending| then Register(st1, |st.pending|, arena) else st
  }

  function ReserveUpTo<A(==)>(cfg: Config, st: HostState<A>, bytes: nat, arena: A): HostState<A>
    requires cfg.Valid()
  {
    Register(ChargeUpTo(cfg, st, bytes, AlignUp(bytes, cfg.blockSize)), |st.pending|, arena)
  }

  /** Between calls nothing is in progress. */
  predicate Quiet<A>(st: HostState<A>) {
    st.busy.None? && st.pending == []
  }

  // ----- the block loop -----

  /** Fields the block loop never touches. */
  predicate LoopFrame<A(==)>(st: HostState<A>, st': HostState<A>) {
    st'.issued == st.issued && st'.pending == st.pending && st'.returned == st.returned && st'.busy.None?
  }

  /** Popping a block moves its weight from the free list to the taken blocks. */
  lemma PoppedWeight(free: seq<Addr>, taken: seq<Addr>)
    requires free != []
    ensures forall u: Addr -> int ::
              SeqSum(free[..|free| - 1], u) + SeqSum(taken + [free[|free| - 1]], u) == SeqSum(free, u) + SeqSum(taken, u)
  {
    forall u: Addr -> int
      ensures SeqSum(free[..|free| - 1], u) + SeqSum(taken + [free[|free| - 1]], u) == SeqSum(free, u) + SeqSum(taken, u)
    {
      SeqSumAppend(taken, free[|free| - 1], u);
    }
  }

  /** What the block loop, entered at `st` with `b` in progress, leaves behind in each ending. */
  ghost predicate LoopLeaves<A>(cfg: Config, st: HostState<A>, b: InFlight<A>, st': HostState<A>, out: Outcome<A>) {
    && LoopFrame(st, st')
    && (out.Handle? || out.UpstreamThrew? || out.OutOfBlocks?)
    && (out.Handle? ==>
          && st'.live == st.live + [out.allocation]
          && |out.allocation.blocks| == b.wanted && b.taken <= out.allocation.blocks
          && out.allocation.bytes == b.wanted * cfg.blockSize && out.allocation.arena == b.arena
          && st'.charged == st.charged && st'.arenas == st.arenas && st'.lost == st.lost
          && st'.peak == Max(st.peak, b.post))
    && (out.UpstreamThrew? ==>
          && st'.charged == st.charged && st'.arenas == st.arenas && st'.live == st.live
          && |st'.lost| == |st.lost| + 1 && st'.peak == st.peak)
    && (out.OutOfBlocks? ==>
          && cfg.poolSize == 0
          && st'.charged == SubWord(st.charged, b.charge)
          && st'.arenas == AddTracked(st.arenas, b.arena, -(b.wanted * cfg.blockSize))
          && st'.live == st.live && st'.lost == st.lost && st'.peak == st.peak
          && (forall u: Addr -> int :: SeqSum(st'.free, u) == SeqSum(st.free, u) + SeqSum(b.taken, u)))
  }

  lemma LastIteration<A>(cfg: Config, st: HostState<A>, upstream: Option<Addr>)
    requires cfg.Valid() && st.busy.Some? && |st.busy.value.taken| < st.busy.value.wanted
    requires Take(cfg, st, upstream).busy.None?
    ensures var st' := Take(cfg, st, upstream); LoopLeaves(cfg, st, st.busy.value, st', Ending(st, st'))
  {
    var b, st' := st.busy.value, Take(cfg, st, upstream);
    if st.free == [] && upstream.Some? && cfg.poolSize == 0 {
      assert st'.free == [] + b.taken == b.taken;
    }
  }

  /** An iteration that goes on changes only the free list, the pools and the blocks taken. */
  lemma GoesOn<A>(cfg: Config, st: HostState<A>, upstream: Option<Addr>)
    requires cfg.Valid() && st.busy.Some? && Take(cfg, st, upstream).busy.Some?
    ensures var st1 := Take(cfg, st, upstream);
            var b, b1 := st.busy.value, st1.busy.value;
            && st1 == st.(busy := st1.busy, free := st1.free, pools := st1.pools)
            && b1 == b.(taken := b1.taken) && b.taken <= b1.taken
            && (cfg.poolSize == 0 ==>
                  forall u: Addr -> int :: SeqSum(st1.free, u) + SeqSum(b1.taken, u) == SeqSum(st.free, u) + SeqSum(b.taken, u))
  {
    if st.free != [] {
      PoppedWeight(st.free, st.busy.value.taken);
    }
  }

  lemma EarlierIteration<A>(cfg: Config, st: HostState<A>, upstream: Option<Addr>, st': HostState<A>, out: Outcome<A>)
    requires cfg.Valid() && st.busy.Some? && Take(cfg, st, upstream).busy.Some?
    requires var st1 := Take(cfg, st, upstream); LoopLeaves(cfg, st1, st1.busy.value, st', out)
    ensures LoopLeaves(cfg, st, st.busy.value, st', out)
  {
    GoesOn(cfg, st, upstream);
  }

  /** The free blocks one iteration can draw on, after a possible expansion. */
  function Refilled<A>(cfg: Config, st: HostState<A>, upstream: Option<Addr>): nat {
    if st.free != [] then |st.free|
    else if upstream.Some? && FreshPool(cfg, st.pools, upstream.value) then cfg.poolSize
    else 0
  }

  lemma OneIteration<A>(cfg: Config, st: HostState<A>, upstream: Option<Addr>)
    requires cfg.Valid() && st.busy.Some? && |st.busy.value.taken| < st.busy.value.wanted
    ensures var st' := Take(cfg, st, upstream);
            var b := st.busy.value;
            var added := st.free == [] && upstream.Some? && FreshPool(cfg, st.pools, upstream.value);
            && st'.pools == (if added then st.pools + [upstream.value] else st.pools)
            && (Refilled(cfg, st, upstream) > 0 ==>
                  && |st'.free| == Refilled(cfg, st, upstream) - 1
                  && (st'.busy.Some? <==> |b.taken| + 1 < b.wanted)
                  && (st'.busy.Some? ==> |st'.busy.value.taken| == |b.taken| + 1 && st'.busy.value.wanted == b.wanted)
                  && (st'.busy.None? ==> |st'.live| == |st.live| + 1))
            && (Refilled(cfg, st, upstream) == 0 ==>
                  && st'.live == st.live
                  && (upstream.None? ==> st'.busy.None? && |st'.lost| == |st.lost| + 1)
                  && (added ==> st'.busy.None? && st'.lost == st.lost)
                  && (upstream.Some? && !added ==> st' == st))
  {
  }

  lemma {:induction false} TakeAllMeans<A>(cfg: Config, st: HostState<A>, upstream: seq<Option<Addr>>)
    requires cfg.Valid() && st.busy.Some? && |st.busy.value.taken| < st.busy.value.wanted
    ensures var (st', out) := TakeAll(cfg, st, upstream); LoopLeaves(cfg, st, st.busy.value, st', out)
    decreases |upstream|, st.busy.value.wanted - |st.busy.value.taken|
  {
    var asking := st.free == [] && upstream != [];
    var answer := if asking then upstream[0] else None;
    var rest := if asking then upstream[1..] else upstream;
    OneIteration(cfg, st, answer);
    if Take(cfg, st, answer).busy.Some? {
      TakeAllMeans(cfg, Take(cfg, st, answer), rest);
      var (st', out) := TakeAll(cfg, Take(cfg, st, answer), rest);
      EarlierIteration(cfg, st, answer, st', out);
    } else {
      LastIteration(cfg, st, answer);
    }
  }

  // ----- how a call ends, from its inputs -----

  /** How many pools the upstream resource adds before it throws. (An address that overlaps a pool
      is no answer it gives.) */
  function Expansions(cfg: Config, pools: seq<Addr>, upstream: seq<Option<Addr>>): nat
    decreases |upstream|
  {
    if upstream == [] || upstream[0].None? then 0
    else if !FreshPool(cfg, pools, upstream[0].value) then Expansions(cfg, pools, upstream[1..])
    else 1 + Expansions(cfg, pools + [upstream[0].value], upstream[1..])
  }

  /** The request gets past the checks at the head of `allocate_multiple_blocks`. */
  predicate Passes<A(==)>(cfg: Config, st: HostState<A>, bytes: nat, arena: Option<A>)
    requires cfg.Valid()
  {
    && bytes > 0 && !Unusable(st, arena)
    && Fits(st.charged, BeginCharge(st, AlignUp(bytes, cfg.blockSize), arena), cfg.capacity)
  }

  /** Free blocks and the pools the upstream resource adds cover the request. */
  predicate EnoughBlocks<A>(cfg: Config, st: HostState<A>, bytes: nat, upstream: seq<Option<Addr>>)
    requires cfg.Valid()
  {
    |st.free| + Expansions(cfg, st.pools, upstream) * cfg.poolSize >= CeilDiv(bytes, cfg.blockSize)
  }

  /** An expansion throws before the request is covered. Pools without blocks are noticed first. */
  predicate Abandons<A(==)>(cfg: Config, st: HostState<A>, bytes: nat, arena: Option<A>, upstream: seq<Option<Addr>>)
    requires cfg.Valid()
  {
    && Passes(cfg, st, bytes, arena) && !EnoughBlocks(cfg, st, bytes, upstream)
    && (cfg.poolSize > 0 || Expansions(cfg, st.pools, upstream) == 0)
  }

  lemma AddPool(n: nat, p: nat)
    ensures (n + 1) * p == n * p + p && n * p >= 0 && (p == 0 ==> n * p == 0)
  {
  }

  lemma {:induction false} LoopEnds<A>(cfg: Config, st: HostState<A>, upstream: seq<Option<Addr>>)
    requires cfg.Valid() && st.busy.Some? && |st.busy.value.taken| < st.busy.value.wanted
    ensures var out := TakeAll(cfg, st, upstream).1;
            var pools := Expansions(cfg, st.pools, upstream);
            var enough := |st.free| + pools * cfg.poolSize >= st.busy.value.wanted - |st.busy.value.taken|;
            && (out.Handle? <==> enough)
            && (out.UpstreamThrew? <==> !enough && (cfg.poolSize > 0 || pools == 0))
            && (out.OutOfBlocks? <==> !enough && cfg.poolSize == 0 && pools > 0)
    decreases |upstream|, st.busy.value.wanted - |st.busy.value.taken|
  {
    var asking := st.free == [] && upstream != [];
    var answer := if asking then upstream[0] else None;
    var rest := if asking then upstream[1..] else upstream;
    var st1 := Take(cfg, st, answer);
    OneIteration(cfg, st, answer);
    AddPool(Expansions(cfg, st1.pools, rest), cfg.poolSize);
    if st1.busy.Some? {
      LoopEnds(cfg, st1, rest);
    }
  }

  /** Every ending of `allocate_multiple_blocks` is decided by what the caller and the upstream
      resource bring to it. */
  lemma AllocationEnds<A>(cfg: Config, st: HostState<A>, bytes: nat, arena: Option<A>, upstream: seq<Option<Addr>>)
    requires cfg.Valid() && st.busy.None?
    ensures var out := Allocate(cfg, st, bytes, arena, upstream).1;
            && (out.EmptyHandle? <==> bytes == 0)
            && (out.BadReservation? <==> bytes > 0 && Unusable(st, arena))
            && (out.OverCapacity? <==> bytes > 0 && !Unusable(st, arena) && !Passes(cfg, st, bytes, arena))
            && (out.Handle? <==> Passes(cfg, st, bytes, arena) && EnoughBlocks(cfg, st, bytes, upstream))
            && (out.UpstreamThrew? <==> Abandons(cfg, st, bytes, arena, upstream))
            && (out.OutOfBlocks? <==>
                  && Passes(cfg, st, bytes, arena) && !EnoughBlocks(cfg, st, bytes, upstream)
                  && cfg.poolSize == 0 && Expansions(cfg, st.pools, upstream) > 0)
  {
    var st1 := Begin(cfg, st, bytes, arena);
    assert bytes > 0 ==> CeilDiv(bytes, cfg.blockSize) > 0;
    if st1.busy.Some? {
      LoopEnds(cfg, st1, upstream);
    }
  }
}
