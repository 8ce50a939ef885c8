/** The peak counter against the history of the counter, when the public operations run one
    after the other. */
module HostHistory {
  import opened Prelude
  import opened HostLedger
  import opened HostAccounting
  import opened HostBlocks
  import opened HostCalls
  import opened HostGuarantees

  /** One public operation, run alone. */
  datatype Call<A> =
    | CallReserve(bytes: nat, arena: A)
    | CallReserveUpTo(bytes: nat, arena: A)
    | CallGrow(arena: A, bytes: nat)
    | CallShrink(arena: A)
    | CallRelease(arena: A)
    | CallAllocate(bytes: nat, from: Option<A>, upstream: seq<Option<Addr>>)
    | CallDrop(index: nat)

  function Perform<A(==)>(cfg: Config, st: HostState<A>, call: Call<A>): HostState<A>
    requires cfg.Valid()
  {
    match call
    case CallReserve(bytes, arena) => if arena in st.issued then st else Reserve(cfg, st, bytes, arena)
    case CallReserveUpTo(bytes, arena) => if arena in st.issued then st else ReserveUpTo(cfg, st, bytes, arena)
    case CallGrow(arena, bytes) => Grow(cfg, st, arena, bytes)
    case CallShrink(arena) => Shrink(st, arena)
    case CallRelease(arena) => Release(st, arena)
    case CallAllocate(bytes, arena, upstream) => Allocate(cfg, st, bytes, arena, upstream).0
    case CallDrop(index) => Drop(cfg, st, index)
  }

  function PerformAll<A(==)>(cfg: Config, st: HostState<A>, calls: seq<Call<A>>): HostState<A>
    requires cfg.Valid()
  {
    if calls == [] then st
    else Perform(cfg, PerformAll(cfg, st, calls[..|calls| - 1]), calls[|calls| - 1])
  }

  /** The largest value the counter had after any call of the history, the start included. */
  function HighWater<A(==)>(cfg: Config, st: HostState<A>, calls: seq<Call<A>>): int
    requires cfg.Valid()
  {
    if calls == [] then st.charged
    else Max(HighWater(cfg, st, calls[..|calls| - 1]), PerformAll(cfg, st, calls).charged)
  }

  // ----- the accounting invariant, call by call -----

  function CallSlack<A(==)>(cfg: Config, st: HostState<A>, call: Call<A>): nat
    requires cfg.Valid()
  {
    if call.CallGrow? then DoubleCharge(cfg, st, OpGrow(call.arena, call.bytes)) else 0
  }

  lemma {:induction false} TakeAllKeeps<A>(cfg: Config, st: HostState<A>, slack: int, upstream: seq<Option<Addr>>)
    requires Accounted(cfg, st, slack)
    ensures Accounted(cfg, TakeAll(cfg, st, upstream).0, slack)
    decreases |upstream|, if st.busy.Some? then Max(0, st.busy.value.wanted - |st.busy.value.taken|) else 0
  {
    if st.busy.Some? {
      var asking := st.free == [] && upstream != [];
      TakeKeeps(cfg, st, slack, if asking then upstream[0] else None);
      var st1 := Take(cfg, st, if asking then upstream[0] else None);
      if st1.busy.Some? {
        TakeAllKeeps(cfg, st1, slack, if asking then upstream[1..] else upstream);
      }
    }
  }

  lemma AllocateKeeps<A>(cfg: Config, st: HostState<A>, slack: int, bytes: nat, arena: Option<A>, upstream: seq<Option<Addr>>)
    requires Accounted(cfg, st, slack)
    ensures Accounted(cfg, Allocate(cfg, st, bytes, arena, upstream).0, slack)
  {
    BeginKeeps(cfg, st, slack, bytes, arena);
    TakeAllKeeps(cfg, Begin(cfg, st, bytes, arena), slack, upstream);
  }

  lemma ReserveKeeps<A>(cfg: Config, st: HostState<A>, slack: int, bytes: nat, arena: A)
    requires Accounted(cfg, st, slack)
    ensures Accounted(cfg, Reserve(cfg, st, bytes, arena), slack)
  {
    var st1 := ChargeExact(cfg, st, bytes);
    if |st1.pending| > |st.pending| {
      assert Reserve(cfg, st, bytes, arena) == Register(st1, |st.pending|, arena);
      ChargeExactKeeps(cfg, st, slack, bytes);
      RegisterKeeps(cfg, st1, slack, |st.pending|, arena);
    } else {
      assert Reserve(cfg, st, bytes, arena) == st;
    }
  }

  lemma ReserveUpToKeeps<A>(cfg: Config, st: HostState<A>, slack: int, bytes: nat, arena: A)
    requires Accounted(cfg, st, slack)
    ensures Accounted(cfg, ReserveUpTo(cfg, st, bytes, arena), slack)
  {
    var b := AlignUp(bytes, cfg.blockSize);
    ChargeUpToKeeps(cfg, st, slack, bytes, b);
    RegisterKeeps(cfg, ChargeUpTo(cfg, st, bytes, b), slack, |st.pending|, arena);
  }

  lemma PerformKeeps<A>(cfg: Config, st: HostState<A>, slack: int, call: Call<A>)
    requires Accounted(cfg, st, slack)
    ensures Accounted(cfg, Perform(cfg, st, call), slack + CallSlack(cfg, st, call))
  {
    match call
    case CallReserve(bytes, arena) => ReserveKeeps(cfg, st, slack, bytes, arena);
    case CallReserveUpTo(bytes, arena) => ReserveUpToKeeps(cfg, st, slack, bytes, arena);
    case CallGrow(arena, bytes) => GrowKeeps(cfg, st, slack, arena, bytes);
    case CallShrink(arena) => ShrinkKeeps(cfg, st, slack, arena);
    case CallRelease(arena) => ReleaseKeeps(cfg, st, slack, arena);
    case CallAllocate(bytes, arena, upstream) => AllocateKeeps(cfg, st, slack, bytes, arena, upstream);
    case CallDrop(index) => DropKeeps(cfg, st, slack, index);
  }

  // ----- the peak -----

  lemma AllocatePeak<A>(cfg: Config, st: HostState<A>, slack: int, bytes: nat, arena: Option<A>, upstream: seq<Option<Addr>>)
    requires Accounted(cfg, st, slack) && st.busy.None? && st.charged <= st.peak
    ensures var (st', out) := Allocate(cfg, st, bytes, arena, upstream);
            && st'.busy.None? && st'.pending == st.pending
            && st.peak <= st'.peak <= Max(st.peak, st'.charged)
            && (!Abandons(cfg, st, bytes, arena, upstream) ==> st'.peak == Max(st.peak, st'.charged))
            && (Abandons(cfg, st, bytes, arena, upstream) ==>
                  st'.peak == st.peak && st'.charged == st.charged + BeginCharge(st, AlignUp(bytes, cfg.blockSize), arena))
  {
    var out := Allocate(cfg, st, bytes, arena, upstream).1;
    AllocationEnds(cfg, st, bytes, arena, upstream);
    var st1 := Begin(cfg, st, bytes, arena);
    if Passes(cfg, st, bytes, arena) {
      BeginCharged(cfg, st, slack, bytes, arena);
      TakeAllMeans(cfg, st1, upstream);
      if !out.Handle? { FailedLoop(cfg, st, slack, bytes, arena, upstream); }
    }
  }

  lemma ReservePeak<A>(cfg: Config, st: HostState<A>, bytes: nat, arena: A)
    requires cfg.Valid() && Quiet(st) && st.charged <= st.peak && arena !in st.issued
    ensures var st' := Reserve(cfg, st, bytes, arena); Quiet(st') && st'.peak == Max(st.peak, st'.charged)
    ensures var st' := ReserveUpTo(cfg, st, bytes, arena); Quiet(st') && st'.peak == Max(st.peak, st'.charged)
  {
  }

  lemma GrowPeak<A>(cfg: Config, st: HostState<A>, arena: A, bytes: nat)
    requires cfg.Valid() && Quiet(st) && st.charged <= st.peak
    ensures var st' := Grow(cfg, st, arena, bytes); Quiet(st') && st'.peak == Max(st.peak, st'.charged)
  {
  }

  /** Giving bytes back leaves the peak alone. */
  lemma BackPeak<A>(cfg: Config, st: HostState<A>, slack: int, op: Op<A>)
    requires Accounted(cfg, st, slack) && Quiet(st) && st.charged <= st.peak
    requires op.OpShrink? || op.OpRelease? || op.OpDrop?
    ensures var st' := Next(cfg, st, op); Quiet(st') && st'.peak == st.peak && st'.charged <= st.charged
  {
    TakingBackNeverWraps(cfg, st, slack, op);
  }

  /** The call is an allocation whose expansion throws, and its charge alone would set a new peak:
      the code records the peak only after the last block. */
  predicate MissesPeak<A(==)>(cfg: Config, st: HostState<A>, call: Call<A>)
    requires cfg.Valid()
  {
    && call.CallAllocate? && Abandons(cfg, st, call.bytes, call.from, call.upstream)
    && st.charged + BeginCharge(st, AlignUp(call.bytes, cfg.blockSize), call.from) > st.peak
  }

  /** Every other call moves the peak to the larger of itself and the new counter value. */
  lemma PeakStep<A>(cfg: Config, st: HostState<A>, slack: int, call: Call<A>)
    requires Accounted(cfg, st, slack) && Quiet(st) && st.charged <= st.peak
    ensures var st' := Perform(cfg, st, call);
            && Quiet(st') && st.peak <= st'.peak <= Max(st.peak, st'.charged)
            && (st'.peak == Max(st.peak, st'.charged) <==> !MissesPeak(cfg, st, call))
  {
    match call
    case CallReserve(bytes, arena) => if arena !in st.issued { ReservePeak(cfg, st, bytes, arena); }
    case CallReserveUpTo(bytes, arena) => if arena !in st.issued { ReservePeak(cfg, st, bytes, arena); }
    case CallGrow(arena, bytes) => GrowPeak(cfg, st, arena, bytes);
    case CallShrink(arena) => BackPeak(cfg, st, slack, OpShrink(arena));
    case CallRelease(arena) => BackPeak(cfg, st, slack, OpRelease(arena));
    case CallAllocate(bytes, arena, upstream) => AllocatePeak(cfg, st, slack, bytes, arena, upstream);
    case CallDrop(index) => BackPeak(cfg, st, slack, OpDrop(index));
  }

  /** Such a call: with no pool yet and an upstream resource that throws, one block of 16 bytes
      stays charged and the peak still says zero. */
  lemma PeakMissesAbandonedCharge()
    ensures var cfg := Config(16, 16, 16, 1);
            var st := Perform<nat>(cfg, InitialState(cfg, []), CallAllocate(1, None, []));
            st.charged == 16 && st.peak == 0
  {
    var cfg := Config(16, 16, 16, 1);
    var st1 := Begin<nat>(cfg, InitialState(cfg, []), 1, None);
    assert st1.busy.Some? && st1.charged == 16 && st1.free == [];
  }

  // ----- both invariants, for every sequential history -----

  lemma {:induction false} TakeAllOwned<A>(cfg: Config, st: HostState<A>, upstream: seq<Option<Addr>>)
    requires cfg.Valid() && Owned(cfg, st)
    ensures Owned(cfg, TakeAll(cfg, st, upstream).0)
    decreases |upstream|, if st.busy.Some? then Max(0, st.busy.value.wanted - |st.busy.value.taken|) else 0
  {
    if st.busy.Some? {
      var asking := st.free == [] && upstream != [];
      TakeOwned(cfg, st, if asking then upstream[0] else None);
      var st1 := Take(cfg, st, if asking then upstream[0] else None);
      if st1.busy.Some? {
        TakeAllOwned(cfg, st1, if asking then upstream[1..] else upstream);
      }
    }
  }

  lemma PerformOwned<A>(cfg: Config, st: HostState<A>, call: Call<A>)
    requires cfg.Valid() && Owned(cfg, st)
    ensures Owned(cfg, Perform(cfg, st, call))
  {
    match call
    case CallAllocate(bytes, arena, upstream) =>
      NextOwned(cfg, st, OpBegin(bytes, arena));
      TakeAllOwned(cfg, Begin(cfg, st, bytes, arena), upstream);
    case CallDrop(index) => DropOwned(cfg, st, index);
    case _ => NoBlockMoved(cfg, st, Perform(cfg, st, call));
  }

  function HistorySlack<A(==)>(cfg: Config, st: HostState<A>, calls: seq<Call<A>>): nat
    requires cfg.Valid()
  {
    if calls == [] then 0
    else
      var before := calls[..|calls| - 1];
      HistorySlack(cfg, st, before) + CallSlack(cfg, PerformAll(cfg, st, before), calls[|calls| - 1])
  }

  /** Whatever sequence of public operations runs, with whatever upstream exceptions, the counter
      is accounted for and every block has one owner. */
  lemma {:induction false} EveryHistorySound<A>(cfg: Config, pools: seq<Addr>, calls: seq<Call<A>>)
    requires cfg.Valid() && PoolsApart(cfg, pools)
    ensures var st := PerformAll(cfg, InitialState(cfg, pools), calls);
            Accounted(cfg, st, HistorySlack(cfg, InitialState(cfg, pools), calls)) && Owned(cfg, st)
  {
    var st0 := InitialState<A>(cfg, pools);
    if calls == [] {
      InitialAccounted<A>(cfg, pools);
      InitialOwned<A>(cfg, pools);
    } else {
      var before := calls[..|calls| - 1];
      EveryHistorySound(cfg, pools, before);
      PerformKeeps(cfg, PerformAll(cfg, st0, before), HistorySlack(cfg, st0, before), calls[|calls| - 1]);
      PerformOwned(cfg, PerformAll(cfg, st0, before), calls[|calls| - 1]);
    }
  }

  ghost predicate NoneMissesPeak<A>(cfg: Config, st: HostState<A>, calls: seq<Call<A>>)
    requires cfg.Valid()
  {
    calls == [] ||
    (NoneMissesPeak(cfg, st, calls[..|calls| - 1])
     && !MissesPeak(cfg, PerformAll(cfg, st, calls[..|calls| - 1]), calls[|calls| - 1]))
  }

  /** After every call of the history the recorded peak is the largest value the counter had so far. */
  ghost predicate PeakFollows<A>(cfg: Config, st: HostState<A>, calls: seq<Call<A>>)
    requires cfg.Valid()
  {
    && PerformAll(cfg, st, calls).peak == HighWater(cfg, st, calls)
    && (calls == [] || PeakFollows(cfg, st, calls[..|calls| - 1]))
  }

  /** In a sequential history the recorded peak is exactly the largest value the counter had after
      any completed operation, throughout, if and only if no allocation whose expansion throws would have
      set a new peak with its charge. */
  lemma {:induction false} PeakIsHighWaterIff<A>(cfg: Config, pools: seq<Addr>, calls: seq<Call<A>>)
    requires cfg.Valid() && PoolsApart(cfg, pools)
    ensures PeakFollows(cfg, InitialState(cfg, pools), calls) <==> NoneMissesPeak(cfg, InitialState(cfg, pools), calls)
    ensures NoneMissesPeak(cfg, InitialState(cfg, pools), calls) ==>
              var st := PerformAll(cfg, InitialState(cfg, pools), calls);
              st.charged <= st.peak == HighWater(cfg, InitialState(cfg, pools), calls) && Quiet(st)
  {
    if calls != [] {
      var st0 := InitialState<A>(cfg, pools);
      var before := calls[..|calls| - 1];
      PeakIsHighWaterIff(cfg, pools, before);
      if NoneMissesPeak(cfg, st0, before) {
        EveryHistorySound(cfg, pools, before);
        PeakStep(cfg, PerformAll(cfg, st0, before), HistorySlack(cfg, st0, before), calls[|calls| - 1]);
      }
    }
  }
}
