/** What `_allocated_bytes` means: the invariant no line of the resource states, and its
    preservation by every atomic step under every interleaving. */
module HostAccounting {
  import opened Prelude
  import opened AtomicCounters
  import opened HostLedger

  // ----- what is being summed -----

  /** The part of an allocation that was charged against arena `a`. */
  ghost function DrawnFrom<A>(a: A): Allocation<A> -> int {
    (x: Allocation<A>) => if x.arena == Some(a) then x.bytes else 0
  }

  /** The part of an allocation no registered arena accounts for: made without a reservation, or
      outliving the one it was made from. */
  ghost function Unowned<A>(keys: set<A>): Allocation<A> -> int {
    (x: Allocation<A>) => if x.arena.Some? && x.arena.value in keys then 0 else x.bytes
  }

  ghost function AllBytes<A>(): Allocation<A> -> int {
    (x: Allocation<A>) => x.bytes
  }

  /** What a registered arena is charged: its size, or its use when that is larger. */
  ghost function Footprint(): Arena -> int {
    (a: Arena) => Max(a.size, a.tracked)
  }

  ghost function Tracked(): Arena -> int {
    (a: Arena) => a.tracked
  }

  ghost function Amount(): nat -> int {
    (n: nat) => n
  }

  function BusyAllocations<A>(cfg: Config, st: HostState<A>): seq<Allocation<A>> {
    if st.busy.None? then []
    else [Allocation(st.busy.value.taken, st.busy.value.wanted * cfg.blockSize, st.busy.value.arena)]
  }

  /** A weight summed over every charge in force: live handles, abandoned allocations, and the
      allocation whose critical section is in progress. */
  ghost function Held<A>(cfg: Config, st: HostState<A>, w: Allocation<A> -> int): int {
    SeqSum(st.live, w) + SeqSum(st.lost, w) + SeqSum(BusyAllocations(cfg, st), w)
  }

  // ----- the invariant -----

  ghost predicate TrackersExact<A>(cfg: Config, st: HostState<A>) {
    forall a :: a in st.arenas ==>
      st.arenas[a].size >= 0 && st.arenas[a].tracked == Held(cfg, st, DrawnFrom(a))
  }

  ghost predicate CounterExact<A>(cfg: Config, st: HostState<A>, slack: int) {
    st.charged == MapSum(st.arenas, Footprint()) + Held(cfg, st, Unowned(st.arenas.Keys))
                  + SeqSum(st.pending, Amount()) + slack
  }

  ghost predicate ArenasKnown<A>(st: HostState<A>) {
    && st.arenas.Keys <= st.issued
    && (forall x :: x in st.live && x.arena.Some? ==> x.arena.value in st.issued)
    && (forall x :: x in st.lost && x.arena.Some? ==> x.arena.value in st.issued)
  }

  ghost predicate ChargesShaped<A>(cfg: Config, st: HostState<A>) {
    && (forall x :: x in st.live ==> x.bytes == |x.blocks| * cfg.blockSize)
    && (forall x :: x in st.lost ==> 0 < x.bytes && |x.blocks| * cfg.blockSize <= x.bytes)
  }

  /** In mid-allocation the counter holds exactly what the allocation added to the footprint. */
  ghost predicate BusyExact<A>(cfg: Config, st: HostState<A>) {
    st.busy.Some? ==>
      var b := st.busy.value;
      && |b.taken| < b.wanted
      && b.charge >= 0
      && (if b.arena.None? then b.charge == b.wanted * cfg.blockSize
          else
            && b.arena.value in st.arenas
            && var a := st.arenas[b.arena.value];
               b.charge == Max(a.size, a.tracked) - Max(a.size, a.tracked - b.wanted * cfg.blockSize))
  }

  ghost predicate Accounted<A>(cfg: Config, st: HostState<A>, slack: int) {
    && cfg.Valid()
    && slack >= 0
    && 0 <= st.charged <= Max(cfg.limit, cfg.capacity)
    && TrackersExact(cfg, st)
    && CounterExact(cfg, st, slack)
    && ArenasKnown(st)
    && ChargesShaped(cfg, st)
    && BusyExact(cfg, st)
  }

  lemma InitialAccounted<A>(cfg: Config, pools: seq<Addr>)
    requires cfg.Valid()
    ensures Accounted<A>(cfg, InitialState(cfg, pools), 0)
  {
  }

  // ----- charges are never negative -----

  lemma HeldNonNegative<A>(cfg: Config, st: HostState<A>, w: Allocation<A> -> int)
    requires forall x :: w(x) >= 0
    ensures Held(cfg, st, w) >= 0
  {
    SeqSumNonNegative(st.live, w);
    SeqSumNonNegative(st.lost, w);
    SeqSumNonNegative(BusyAllocations(cfg, st), w);
  }

  /** No tracker goes below zero, and none below the bytes of one live allocation drawn from it. */
  lemma TrackerCovers<A>(cfg: Config, st: HostState<A>, slack: int, a: A)
    requires Accounted(cfg, st, slack) && a in st.arenas
    ensures st.arenas[a].tracked >= 0
    ensures forall x :: x in st.live && x.arena == Some(a) ==> x.bytes <= st.arenas[a].tracked
    ensures st.busy.Some? && st.busy.value.arena == Some(a) ==>
              st.busy.value.wanted * cfg.blockSize <= st.arenas[a].tracked
  {
    var w := DrawnFrom(a);
    SeqSumNonNegative(st.live, w);
    SeqSumNonNegative(st.lost, w);
    var b := BusyAllocations(cfg, st);
    SeqSumNonNegative(b, w);
    if st.busy.Some? { assert b[0] in b; }
  }

  // ----- one lemma a step -----

  lemma ChargeExactKeeps<A>(cfg: Config, st: HostState<A>, slack: int, bytes: nat)
    requires Accounted(cfg, st, slack)
    ensures Accounted(cfg, ChargeExact(cfg, st, bytes), slack)
  {
    var b := AlignUp(bytes, cfg.blockSize);
    SeqSumAppend(st.pending, b, Amount());
    assert forall w :: Held(cfg, ChargeExact(cfg, st, bytes), w) == Held(cfg, st, w);
  }

  lemma ChargeUpToKeeps<A>(cfg: Config, st: HostState<A>, slack: int, bytes: nat, asked: nat)
    requires Accounted(cfg, st, slack)
    ensures Accounted(cfg, ChargeUpTo(cfg, st, bytes, asked), slack)
  {
    var b: nat := Min(asked, Granted(st.charged, AlignUp(bytes, cfg.blockSize), cfg.limit));
    SeqSumAppend(st.pending, b, Amount());
    assert forall w :: Held(cfg, ChargeUpTo(cfg, st, bytes, asked), w) == Held(cfg, st, w);
  }

  /** Changing the set of arenas only moves allocations between owned and unowned. */
  lemma HeldAgree<A>(cfg: Config, st: HostState<A>, u: Allocation<A> -> int, v: Allocation<A> -> int)
    requires forall x :: x in st.live || x in st.lost || x in BusyAllocations(cfg, st) ==> u(x) == v(x)
    ensures Held(cfg, st, u) == Held(cfg, st, v)
  {
    SeqSumEqual(st.live, u, v);
    SeqSumEqual(st.lost, u, v);
    SeqSumEqual(BusyAllocations(cfg, st), u, v);
  }

  lemma HeldSplit<A>(cfg: Config, st: HostState<A>, w: Allocation<A> -> int, u: Allocation<A> -> int, v: Allocation<A> -> int)
    requires forall x :: w(x) == u(x) + v(x)
    ensures Held(cfg, st, w) == Held(cfg, st, u) + Held(cfg, st, v)
  {
    SeqSumSplit(st.live, w, u, v);
    SeqSumSplit(st.lost, w, u, v);
    SeqSumSplit(BusyAllocations(cfg, st), w, u, v);
  }

  /** An arena that stops being registered leaves its allocations unowned. */
  lemma HeldDisown<A>(cfg: Config, st: HostState<A>, keys: set<A>, arena: A)
    requires arena in keys
    ensures Held(cfg, st, Unowned(keys - {arena})) == Held(cfg, st, Unowned(keys)) + Held(cfg, st, DrawnFrom(arena))
  {
    HeldSplit(cfg, st, Unowned(keys - {arena}), Unowned(keys), DrawnFrom(arena));
  }

  ghost function Nothing<A>(): Allocation<A> -> int {
    (x: Allocation<A>) => 0
  }

  lemma HeldNothing<A>(cfg: Config, st: HostState<A>)
    ensures Held(cfg, st, Nothing()) == 0
  {
    HeldSplit(cfg, st, Nothing(), Nothing(), Nothing());
  }

  lemma RegisterKeeps<A>(cfg: Config, st: HostState<A>, slack: int, index: nat, arena: A)
    requires Accounted(cfg, st, slack)
    ensures Accounted(cfg, Register(st, index, arena), slack)
  {
    var st' := Register(st, index, arena);
    if st' != st {
      var entry := Arena(st.pending[index], 0);
      MapSumInsert(st.arenas, arena, entry, Footprint());
      SeqSumRemoveAt(st.pending, index, Amount());
      assert st'.arenas.Keys == st.arenas.Keys + {arena};
      assert forall w :: Held(cfg, st', w) == Held(cfg, st, w);
      HeldAgree(cfg, st, Unowned(st'.arenas.Keys), Unowned(st.arenas.Keys));
      HeldAgree(cfg, st, DrawnFrom(arena), Nothing());
      HeldNothing(cfg, st);
    }
  }

  lemma GrowKeeps<A>(cfg: Config, st: HostState<A>, slack: int, arena: A, bytes: nat)
    requires Accounted(cfg, st, slack)
    ensures Accounted(cfg, Grow(cfg, st, arena, bytes), slack + DoubleCharge(cfg, st, OpGrow(arena, bytes)))
  {
    var st' := Grow(cfg, st, arena, bytes);
    if st' != st {
      MapSumUpdate(st.arenas, arena, st'.arenas[arena], Footprint());
      assert st'.arenas.Keys == st.arenas.Keys;
      assert forall w :: Held(cfg, st', w) == Held(cfg, st, w);
    }
  }

  lemma FootprintNonNegative<A>(cfg: Config, st: HostState<A>, slack: int)
    requires Accounted(cfg, st, slack)
    ensures forall a :: a in st.arenas ==> Footprint()(st.arenas[a]) >= 0
    ensures MapSum(st.arenas, Footprint()) >= 0
    ensures SeqSum(st.pending, Amount()) >= 0
    ensures Held(cfg, st, Unowned(st.arenas.Keys)) >= 0
  {
    MapSumNonNegative(st.arenas, Footprint());
    SeqSumNonNegative(st.pending, Amount());
    HeldNonNegative(cfg, st, Unowned(st.arenas.Keys));
  }

  /** The counter always covers the whole footprint of any one arena, so nothing taken back for
      it can make the unsigned counter wrap. */
  lemma CounterCoversArena<A>(cfg: Config, st: HostState<A>, slack: int, arena: A)
    requires Accounted(cfg, st, slack) && arena in st.arenas
    ensures Max(st.arenas[arena].size, st.arenas[arena].tracked) <= st.charged
  {
    FootprintNonNegative(cfg, st, slack);
    MapSumNonNegative(st.arenas, Footprint());
  }

  lemma ShrinkKeeps<A>(cfg: Config, st: HostState<A>, slack: int, arena: A)
    requires Accounted(cfg, st, slack)
    ensures Accounted(cfg, Shrink(st, arena), slack)
  {
    var st' := Shrink(st, arena);
    if st' != st {
      TrackerCovers(cfg, st, slack, arena);
      CounterCoversArena(cfg, st, slack, arena);
      MapSumUpdate(st.arenas, arena, st'.arenas[arena], Footprint());
      assert st'.arenas.Keys == st.arenas.Keys;
      assert forall w :: Held(cfg, st', w) == Held(cfg, st, w);
    }
  }

  lemma ReleaseKeeps<A>(cfg: Config, st: HostState<A>, slack: int, arena: A)
    requires Accounted(cfg, st, slack)
    ensures Accounted(cfg, Release(st, arena), slack)
  {
    var st' := Release(st, arena);
    if st.busy.None? && arena in st.arenas {
      TrackerCovers(cfg, st, slack, arena);
      CounterCoversArena(cfg, st, slack, arena);
      MapSumRemove(st.arenas, arena, Footprint());
      assert st'.arenas.Keys == st.arenas.Keys - {arena};
      assert forall w :: Held(cfg, st', w) == Held(cfg, st, w);
      HeldDisown(cfg, st, st.arenas.Keys, arena);
    }
  }

  /** Charging or crediting `bytes` to the tracker of `arena` changes the total footprint by the
      change of that arena's own footprint, and nothing else. */
  lemma FootprintChange<A>(arenas: map<A, Arena>, arena: Option<A>, bytes: int)
    requires arena.Some? ==> arena.value in arenas
    ensures AddTracked(arenas, arena, bytes).Keys == arenas.Keys
    ensures MapSum(AddTracked(arenas, arena, bytes), Footprint()) - MapSum(arenas, Footprint())
            == if arena.None? then 0
               else var a := arenas[arena.value]; Max(a.size, a.tracked + bytes) - Max(a.size, a.tracked)
  {
    if arena.Some? {
      MapSumUpdate(arenas, arena.value, AddTracked(arenas, arena, bytes)[arena.value], Footprint());
    }
  }

  function Signed(gain: bool, n: int): int {
    if gain then n else -n
  }

  /** Adding (`gain`) or removing one charge `x` keeps the trackers exact. */
  lemma RechargeTrackers<A>(cfg: Config, st: HostState<A>, st': HostState<A>, x: Allocation<A>, gain: bool)
    requires TrackersExact(cfg, st)
    requires forall w :: Held(cfg, st', w) == Held(cfg, st, w) + Signed(gain, w(x))
    requires st'.arenas == AddTracked(st.arenas, x.arena, Signed(gain, x.bytes))
    ensures st'.arenas.Keys == st.arenas.Keys
    ensures TrackersExact(cfg, st')
  {
    forall a | a in st'.arenas
      ensures st'.arenas[a].size >= 0 && st'.arenas[a].tracked == Held(cfg, st', DrawnFrom(a))
    {
      assert Held(cfg, st', DrawnFrom(a)) == Held(cfg, st, DrawnFrom(a)) + Signed(gain, DrawnFrom(a)(x));
    }
  }

  function ChargeMove<A(==)>(st: HostState<A>, x: Allocation<A>, bytes: int): int {
    if x.arena.Some? && x.arena.value in st.arenas then
      var a := st.arenas[x.arena.value];
      Max(a.size, a.tracked + bytes) - Max(a.size, a.tracked)
    else bytes
  }

  /** It keeps the counter exact too, provided the counter moves by what the footprint of the
      charged arena moves by, or by all of `x` when no registered arena accounts for it. */
  lemma RechargeCounter<A>(cfg: Config, st: HostState<A>, st': HostState<A>, slack: int, x: Allocation<A>, gain: bool)
    requires CounterExact(cfg, st, slack)
    requires st'.arenas.Keys == st.arenas.Keys
    requires var w := Unowned(st.arenas.Keys); Held(cfg, st', w) == Held(cfg, st, w) + Signed(gain, w(x))
    requires st'.arenas == AddTracked(st.arenas, x.arena, Signed(gain, x.bytes))
    requires st'.pending == st.pending
    requires st'.charged - st.charged == ChargeMove(st, x, Signed(gain, x.bytes))
    ensures CounterExact(cfg, st', slack)
  {
    if x.arena.Some? && x.arena.value in st.arenas {
      FootprintChange(st.arenas, x.arena, Signed(gain, x.bytes));
    }
  }

  lemma Recharge<A>(cfg: Config, st: HostState<A>, st': HostState<A>, slack: int, x: Allocation<A>, gain: bool)
    requires TrackersExact(cfg, st) && CounterExact(cfg, st, slack)
    requires forall w :: Held(cfg, st', w) == Held(cfg, st, w) + Signed(gain, w(x))
    requires st'.arenas == AddTracked(st.arenas, x.arena, Signed(gain, x.bytes))
    requires st'.pending == st.pending
    requires st'.charged - st.charged == ChargeMove(st, x, Signed(gain, x.bytes))
    ensures st'.arenas.Keys == st.arenas.Keys
    ensures TrackersExact(cfg, st') && CounterExact(cfg, st', slack)
  {
    RechargeTrackers(cfg, st, st', x, gain);
    RechargeCounter(cfg, st, st', slack, x, gain);
  }

  /** Moving charges between `live`, `lost` and `busy` leaves trackers and counter exact. */
  lemma Relabel<A>(cfg: Config, st: HostState<A>, st': HostState<A>, slack: int)
    requires TrackersExact(cfg, st) && CounterExact(cfg, st, slack)
    requires st'.arenas == st.arenas && st'.pending == st.pending && st'.charged == st.charged
    requires forall a :: Held(cfg, st', DrawnFrom(a)) == Held(cfg, st, DrawnFrom(a))
    requires forall keys :: Held(cfg, st', Unowned(keys)) == Held(cfg, st, Unowned(keys))
    ensures TrackersExact(cfg, st') && CounterExact(cfg, st', slack)
  {
  }

  lemma HeldBegin<A>(cfg: Config, st: HostState<A>, bytes: nat, arena: Option<A>)
    requires cfg.Valid() && Begin(cfg, st, bytes, arena) != st
    ensures forall w :: Held(cfg, Begin(cfg, st, bytes, arena), w)
                        == Held(cfg, st, w) + Signed(true, w(Allocation([], AlignUp(bytes, cfg.blockSize), arena)))
  {
    var x := Allocation([], AlignUp(bytes, cfg.blockSize), arena);
    assert BusyAllocations(cfg, Begin(cfg, st, bytes, arena)) == [x];
    SeqSumSingle(x);
  }

  /** The counter moves by what the arena's footprint moves by. */
  lemma BeginCharged<A>(cfg: Config, st: HostState<A>, slack: int, bytes: nat, arena: Option<A>)
    requires Accounted(cfg, st, slack) && Begin(cfg, st, bytes, arena) != st
    ensures var st', x := Begin(cfg, st, bytes, arena), Allocation([], AlignUp(bytes, cfg.blockSize), arena);
            && st'.charged - st.charged == ChargeMove(st, x, Signed(true, x.bytes))
            && st.charged <= st'.charged <= cfg.capacity
            && BusyExact(cfg, st')
  {
    if arena.Some? { TrackerCovers(cfg, st, slack, arena.value); }
  }

  lemma BeginKeeps<A>(cfg: Config, st: HostState<A>, slack: int, bytes: nat, arena: Option<A>)
    requires Accounted(cfg, st, slack)
    ensures Accounted(cfg, Begin(cfg, st, bytes, arena), slack)
  {
    var st' := Begin(cfg, st, bytes, arena);
    if st' != st {
      HeldBegin(cfg, st, bytes, arena);
      BeginCharged(cfg, st, slack, bytes, arena);
      Recharge(cfg, st, st', slack, Allocation([], AlignUp(bytes, cfg.blockSize), arena), true);
    }
  }

  /** The weights that matter look at a charge's bytes and arena only, not at its blocks. */
  lemma SameWeight<A>(x: Allocation<A>, y: Allocation<A>)
    requires x.bytes == y.bytes && x.arena == y.arena
    ensures forall a :: DrawnFrom(a)(x) == DrawnFrom(a)(y)
    ensures forall keys :: Unowned(keys)(x) == Unowned(keys)(y)
  {
  }

  lemma AbandonShaped<A>(cfg: Config, st: HostState<A>)
    requires cfg.Valid() && ChargesShaped(cfg, st) && BusyExact(cfg, st) && st.busy.Some? && st.free == []
    ensures ChargesShaped(cfg, Take(cfg, st, None)) && BusyExact(cfg, Take(cfg, st, None))
  {
    var b := st.busy.value;
    MulMonotone(|b.taken|, b.wanted, cfg.blockSize);
    MulMonotone(1, b.wanted, cfg.blockSize);
  }

  /** An upstream exception leaves the charge in force with nobody holding the blocks. */
  lemma AbandonKeeps<A>(cfg: Config, st: HostState<A>, slack: int)
    requires Accounted(cfg, st, slack) && st.busy.Some? && st.free == []
    ensures Accounted(cfg, Take(cfg, st, None), slack)
  {
    var x := BusyAllocations(cfg, st)[0];
    var st' := Take(cfg, st, None);
    assert st' == st.(busy := None, lost := st.lost + [x]);
    AbandonShaped(cfg, st);
    SeqSumSingle(x);
    forall w: Allocation<A> -> int
      ensures Held(cfg, st', w) == Held(cfg, st, w)
    {
      SeqSumAppend(st.lost, x, w);
    }
    Relabel(cfg, st, st', slack);
  }

  /** The accounting does not look at pools and free blocks. */
  lemma ExpandKeeps<A>(cfg: Config, st: HostState<A>, slack: int, pools: seq<Addr>, free: seq<Addr>)
    requires Accounted(cfg, st, slack)
    ensures Accounted(cfg, st.(pools := pools, free := free), slack)
  {
    var st' := st.(pools := pools, free := free);
    assert forall w :: Held(cfg, st', w) == Held(cfg, st, w);
  }

  lemma PopShaped<A>(cfg: Config, st: HostState<A>, slack: int)
    requires Accounted(cfg, st, slack) && st.busy.Some? && st.free != []
    ensures var st' := PopBlock(cfg, st, st.busy.value); ChargesShaped(cfg, st') && BusyExact(cfg, st')
  {
    assert |st.busy.value.taken| < st.busy.value.wanted;
  }

  lemma HeldPop<A>(cfg: Config, st: HostState<A>)
    requires st.busy.Some? && st.free != []
    ensures var st' := PopBlock(cfg, st, st.busy.value);
            && (forall a :: Held(cfg, st', DrawnFrom(a)) == Held(cfg, st, DrawnFrom(a)))
            && (forall keys :: Held(cfg, st', Unowned(keys)) == Held(cfg, st, Unowned(keys)))
  {
    var b := st.busy.value;
    var st' := PopBlock(cfg, st, b);
    var taken := b.taken + [st.free[|st.free| - 1]];
    var x, y := BusyAllocations(cfg, st)[0], Allocation(taken, b.wanted * cfg.blockSize, b.arena);
    SeqSumSingle(x);
    SeqSumSingle(y);
    SameWeight(x, y);
    forall w: Allocation<A> -> int
      ensures Held(cfg, st', w) == Held(cfg, st, w) - w(x) + w(y)
    {
      SeqSumAppend(st.live, y, w);
    }
  }

  lemma PopBlockKeeps<A>(cfg: Config, st: HostState<A>, slack: int)
    requires Accounted(cfg, st, slack) && st.busy.Some? && st.free != []
    ensures Accounted(cfg, PopBlock(cfg, st, st.busy.value), slack)
  {
    PopShaped(cfg, st, slack);
    HeldPop(cfg, st);
    Relabel(cfg, st, PopBlock(cfg, st, st.busy.value), slack);
  }

  /** The charge of an allocation in progress is still in the counter. */
  lemma BusyCovered<A>(cfg: Config, st: HostState<A>, slack: int)
    requires Accounted(cfg, st, slack) && st.busy.Some?
    ensures 0 <= st.busy.value.charge <= st.charged
  {
    var b := st.busy.value;
    if b.arena.Some? {
      TrackerCovers(cfg, st, slack, b.arena.value);
      CounterCoversArena(cfg, st, slack, b.arena.value);
    } else {
      var w := Unowned(st.arenas.Keys);
      var x := BusyAllocations(cfg, st)[0];
      FootprintNonNegative(cfg, st, slack);
      SeqSumSingle(x);
      SeqSumNonNegative(st.live, w);
      SeqSumNonNegative(st.lost, w);
      assert w(x) == b.charge;
    }
  }

  lemma RollBackRefund<A>(cfg: Config, st: HostState<A>, slack: int)
    requires Accounted(cfg, st, slack) && st.busy.Some?
    ensures var st', x := RollBack(cfg, st, st.busy.value), BusyAllocations(cfg, st)[0];
            && st'.charged - st.charged == ChargeMove(st, x, Signed(false, x.bytes))
            && 0 <= st'.charged <= st.charged
  {
    BusyCovered(cfg, st, slack);
  }

  lemma HeldRollBack<A>(cfg: Config, st: HostState<A>)
    requires st.busy.Some?
    ensures forall w :: Held(cfg, RollBack(cfg, st, st.busy.value), w)
                        == Held(cfg, st, w) + Signed(false, w(BusyAllocations(cfg, st)[0]))
  {
    SeqSumSingle(BusyAllocations(cfg, st)[0]);
  }

  lemma RollBackKeeps<A>(cfg: Config, st: HostState<A>, slack: int)
    requires Accounted(cfg, st, slack) && st.busy.Some?
    ensures Accounted(cfg, RollBack(cfg, st, st.busy.value), slack)
  {
    RollBackRefund(cfg, st, slack);
    HeldRollBack(cfg, st);
    Recharge(cfg, st, RollBack(cfg, st, st.busy.value), slack, BusyAllocations(cfg, st)[0], false);
  }

  lemma TakeKeeps<A>(cfg: Config, st: HostState<A>, slack: int, upstream: Option<Addr>)
    requires Accounted(cfg, st, slack)
    ensures Accounted(cfg, Take(cfg, st, upstream), slack)
  {
    if st.busy.Some? {
      if st.free != [] {
        PopBlockKeeps(cfg, st, slack);
      } else if upstream.None? {
        AbandonKeeps(cfg, st, slack);
      } else if FreshPool(cfg, st.pools, upstream.value) {
        var blocks := PoolBlocks(cfg, upstream.value);
        var st1 := st.(pools := st.pools + [upstream.value], free := blocks);
        ExpandKeeps(cfg, st, slack, st.pools + [upstream.value], blocks);
        if blocks == [] {
          RollBackKeeps(cfg, st1, slack);
        } else {
          PopBlockKeeps(cfg, st1, slack);
        }
      }
    }
  }

  lemma HeldDrop<A>(cfg: Config, st: HostState<A>, index: nat)
    requires st.busy.None? && index < |st.live|
    ensures forall w :: Held(cfg, Drop(cfg, st, index), w) == Held(cfg, st, w) + Signed(false, w(st.live[index]))
  {
    forall w: Allocation<A> -> int
      ensures Held(cfg, Drop(cfg, st, index), w) == Held(cfg, st, w) + Signed(false, w(st.live[index]))
    {
      SeqSumRemoveAt(st.live, index, w);
    }
  }

  lemma UnownedCovered<A>(cfg: Config, st: HostState<A>, slack: int, x: Allocation<A>)
    requires Accounted(cfg, st, slack) && x in st.live
    requires x.arena.Some? ==> x.arena.value !in st.arenas
    ensures x.bytes <= st.charged
  {
    var w := Unowned(st.arenas.Keys);
    FootprintNonNegative(cfg, st, slack);
    SeqSumNonNegative(st.live, w);
    SeqSumNonNegative(st.lost, w);
    SeqSumNonNegative(BusyAllocations(cfg, st), w);
    assert w(x) == x.bytes;
  }

  /** What dropping a handle gives back is what its arena's footprint loses, and it was charged. */
  lemma DropCredit<A>(cfg: Config, st: HostState<A>, slack: int, index: nat)
    requires Accounted(cfg, st, slack) && st.busy.None? && index < |st.live|
    ensures var x := st.live[index];
            && x.bytes == |x.blocks| * cfg.blockSize
            && 0 <= Drop(cfg, st, index).charged <= st.charged
            && Drop(cfg, st, index).charged - st.charged == ChargeMove(st, x, Signed(false, x.bytes))
  {
    var x := st.live[index];
    assert x in st.live;
    if x.arena.Some? && x.arena.value in st.arenas {
      TrackerCovers(cfg, st, slack, x.arena.value);
      CounterCoversArena(cfg, st, slack, x.arena.value);
    } else {
      UnownedCovered(cfg, st, slack, x);
    }
  }

  lemma DropKeeps<A>(cfg: Config, st: HostState<A>, slack: int, index: nat)
    requires Accounted(cfg, st, slack)
    ensures Accounted(cfg, Drop(cfg, st, index), slack)
  {
    if st.busy.None? && index < |st.live| {
      HeldDrop(cfg, st, index);
      DropCredit(cfg, st, slack, index);
      Recharge(cfg, st, Drop(cfg, st, index), slack, st.live[index], false);
    }
  }

  // ----- every step, every run -----

  lemma NextKeeps<A>(cfg: Config, st: HostState<A>, slack: int, op: Op<A>)
    requires Accounted(cfg, st, slack)
    ensures Accounted(cfg, Next(cfg, st, op), slack + DoubleCharge(cfg, st, op))
  {
    match op
    case OpChargeExact(bytes) => ChargeExactKeeps(cfg, st, slack, bytes);
    case OpChargeUpTo(bytes, asked) => ChargeUpToKeeps(cfg, st, slack, bytes, asked);
    case OpRegister(index, arena) => RegisterKeeps(cfg, st, slack, index, arena);
    case OpGrow(arena, bytes) => GrowKeeps(cfg, st, slack, arena, bytes);
    case OpShrink(arena) => ShrinkKeeps(cfg, st, slack, arena);
    case OpRelease(arena) => ReleaseKeeps(cfg, st, slack, arena);
    case OpBegin(bytes, arena) => BeginKeeps(cfg, st, slack, bytes, arena);
    case OpTake(upstream) => TakeKeeps(cfg, st, slack, upstream);
    case OpDrop(index) => DropKeeps(cfg, st, slack, index);
  }

  /** The accounting theorem: after any interleaving of any steps the counter is the footprint of
      the registered arenas, plus the allocations no registered arena accounts for, plus the
      charges still waiting for their arena, plus the double charges of the growths so far. */
  lemma {:induction false} RunAccounted<A>(cfg: Config, pools: seq<Addr>, ops: seq<Op<A>>)
    requires cfg.Valid()
    ensures Accounted(cfg, Exec(cfg, InitialState(cfg, pools), ops), Slack(cfg, InitialState(cfg, pools), ops))
  {
    var st := InitialState<A>(cfg, pools);
    if ops == [] {
      InitialAccounted<A>(cfg, pools);
    } else {
      var before := ops[..|ops| - 1];
      RunAccounted(cfg, pools, before);
      NextKeeps(cfg, Exec(cfg, st, before), Slack(cfg, st, before), ops[|ops| - 1]);
    }
  }
}
