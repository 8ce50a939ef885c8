/** Who owns which block: every block carved out of an upstream pool is in exactly one place. */
module HostBlocks {
  import opened Prelude
  import opened HostLedger

  // ----- conservation -----

  /** A weight on blocks, summed over the blocks of a handle. */
  ghost function Over<A>(u: Addr -> int): Allocation<A> -> int {
    (x: Allocation<A>) => SeqSum(x.blocks, u)
  }

  function BusyBlocks<A>(st: HostState<A>): seq<Addr> {
    if st.busy.None? then [] else st.busy.value.taken
  }

  /** A weight summed over free blocks, handed-out blocks, abandoned blocks, blocks being handed
      out, and blocks given back. */
  ghost function Everywhere<A>(st: HostState<A>, u: Addr -> int): int {
    SeqSum(st.free, u) + SeqSum(st.live, Over(u)) + SeqSum(st.lost, Over(u))
    + SeqSum(BusyBlocks(st), u) + SeqSum(st.returned, u)
  }

  /** Whatever is counted about blocks - how many there are, how often one address occurs - these
      places together hold what all pools hold. */
  ghost predicate BlocksConserved<A>(cfg: Config, st: HostState<A>) {
    forall u: Addr -> int :: Everywhere(st, u) == SeqSum(Carve(cfg, st.pools), u)
  }

  ghost predicate PoolsApart(cfg: Config, pools: seq<Addr>) {
    forall i, j :: 0 <= i < j < |pools| ==> Apart(cfg, pools[i], pools[j])
  }

  ghost predicate Owned<A>(cfg: Config, st: HostState<A>) {
    BlocksConserved(cfg, st) && PoolsApart(cfg, st.pools)
  }

  lemma CarveAppend(cfg: Config, pools: seq<Addr>, base: Addr)
    ensures Carve(cfg, pools + [base]) == Carve(cfg, pools) + PoolBlocks(cfg, base)
  {
    assert (pools + [base])[..|pools|] == pools;
  }

  lemma ExpandOwned<A>(cfg: Config, st: HostState<A>, base: Addr)
    requires Owned(cfg, st) && st.free == [] && FreshPool(cfg, st.pools, base)
    ensures Owned(cfg, st.(pools := st.pools + [base], free := PoolBlocks(cfg, base)))
  {
    var st' := st.(pools := st.pools + [base], free := PoolBlocks(cfg, base));
    CarveAppend(cfg, st.pools, base);
    forall u: Addr -> int
      ensures Everywhere(st', u) == SeqSum(Carve(cfg, st'.pools), u)
    {
      assert Everywhere(st, u) == SeqSum(Carve(cfg, st.pools), u);
      SeqSumConcat(Carve(cfg, st.pools), PoolBlocks(cfg, base), u);
    }
  }

  /** Popping a block moves it from the free list to the allocation, or with it into a handle. */
  lemma PopMoves<A>(cfg: Config, st: HostState<A>, u: Addr -> int)
    requires st.free != [] && st.busy.Some?
    ensures Everywhere(PopBlock(cfg, st, st.busy.value), u) == Everywhere(st, u)
  {
    var b, x := st.busy.value, st.free[|st.free| - 1];
    SeqSumAppend(b.taken, x, u);
    SeqSumAppend(st.live, Allocation(b.taken + [x], b.wanted * cfg.blockSize, b.arena), Over(u));
  }

  lemma PopOwned<A>(cfg: Config, st: HostState<A>)
    requires Owned(cfg, st) && st.free != [] && st.busy.Some?
    ensures Owned(cfg, PopBlock(cfg, st, st.busy.value))
  {
    forall u: Addr -> int
      ensures Everywhere(PopBlock(cfg, st, st.busy.value), u) == SeqSum(Carve(cfg, st.pools), u)
    {
      assert Everywhere(st, u) == SeqSum(Carve(cfg, st.pools), u);
      PopMoves(cfg, st, u);
    }
  }

  lemma RollBackOwned<A>(cfg: Config, st: HostState<A>)
    requires Owned(cfg, st) && st.busy.Some?
    ensures Owned(cfg, RollBack(cfg, st, st.busy.value))
  {
    var st' := RollBack(cfg, st, st.busy.value);
    forall u: Addr -> int
      ensures Everywhere(st', u) == SeqSum(Carve(cfg, st'.pools), u)
    {
      assert Everywhere(st, u) == SeqSum(Carve(cfg, st.pools), u);
      SeqSumConcat(st.free, st.busy.value.taken, u);
    }
  }

  lemma AbandonOwned<A>(cfg: Config, st: HostState<A>)
    requires cfg.Valid() && Owned(cfg, st) && st.busy.Some? && st.free == []
    ensures Owned(cfg, Take(cfg, st, None))
  {
    var b := st.busy.value;
    var st' := Take(cfg, st, None);
    forall u: Addr -> int
      ensures Everywhere(st', u) == SeqSum(Carve(cfg, st'.pools), u)
    {
      assert Everywhere(st, u) == SeqSum(Carve(cfg, st.pools), u);
      SeqSumAppend(st.lost, Allocation(b.taken, b.wanted * cfg.blockSize, b.arena), Over(u));
    }
  }

  lemma TakeOwned<A>(cfg: Config, st: HostState<A>, upstream: Option<Addr>)
    requires cfg.Valid() && Owned(cfg, st)
    ensures Owned(cfg, Take(cfg, st, upstream))
  {
    if st.busy.Some? {
      if st.free != [] {
        PopOwned(cfg, st);
      } else if upstream.None? {
        AbandonOwned(cfg, st);
      } else if FreshPool(cfg, st.pools, upstream.value) {
        ExpandOwned(cfg, st, upstream.value);
        var st1 := st.(pools := st.pools + [upstream.value], free := PoolBlocks(cfg, upstream.value));
        if st1.free == [] {
          RollBackOwned(cfg, st1);
        } else {
          PopOwned(cfg, st1);
        }
      }
    }
  }

  lemma DropOwned<A>(cfg: Config, st: HostState<A>, index: nat)
    requires Owned(cfg, st)
    ensures Owned(cfg, Drop(cfg, st, index))
  {
    if st.busy.None? && index < |st.live| {
      var st' := Drop(cfg, st, index);
      forall u: Addr -> int
        ensures Everywhere(st', u) == SeqSum(Carve(cfg, st'.pools), u)
      {
        assert Everywhere(st, u) == SeqSum(Carve(cfg, st.pools), u);
        SeqSumRemoveAt(st.live, index, Over(u));
        SeqSumConcat(st.returned, st.live[index].blocks, u);
      }
    }
  }

  /** Steps that move no block. */
  lemma NoBlockMoved<A>(cfg: Config, st: HostState<A>, st': HostState<A>)
    requires Owned(cfg, st)
    requires st'.free == st.free && st'.live == st.live && st'.lost == st.lost && st'.returned == st.returned
    requires st'.pools == st.pools && BusyBlocks(st') == BusyBlocks(st)
    ensures Owned(cfg, st')
  {
    forall u: Addr -> int
      ensures Everywhere(st', u) == SeqSum(Carve(cfg, st'.pools), u)
    {
      assert Everywhere(st, u) == SeqSum(Carve(cfg, st.pools), u);
    }
  }

  lemma NextOwned<A>(cfg: Config, st: HostState<A>, op: Op<A>)
    requires cfg.Valid() && Owned(cfg, st)
    ensures Owned(cfg, Next(cfg, st, op))
  {
    match op
    case OpTake(upstream) => TakeOwned(cfg, st, upstream);
    case OpDrop(index) => DropOwned(cfg, st, index);
    case _ => NoBlockMoved(cfg, st, Next(cfg, st, op));
  }

  lemma {:induction false} InitialOwned<A>(cfg: Config, pools: seq<Addr>)
    requires PoolsApart(cfg, pools)
    ensures Owned(cfg, InitialState<A>(cfg, pools))
  {
  }

  /** Block ownership after any interleaving of any steps. */
  lemma {:induction false} RunOwned<A>(cfg: Config, pools: seq<Addr>, ops: seq<Op<A>>)
    requires cfg.Valid() && PoolsApart(cfg, pools)
    ensures Owned(cfg, Exec(cfg, InitialState(cfg, pools), ops))
  {
    if ops == [] {
      InitialOwned<A>(cfg, pools);
    } else {
      RunOwned(cfg, pools, ops[..|ops| - 1]);
      NextOwned(cfg, Exec(cfg, InitialState(cfg, pools), ops[..|ops| - 1]), ops[|ops| - 1]);
    }
  }

  // ----- geometry: carved blocks are disjoint ranges inside their pools -----

  predicate Disjoint(cfg: Config, x: Addr, y: Addr) {
    RangesApart(x, y, cfg.blockSize, cfg.blockSize)
  }

  lemma BlockOfPool(cfg: Config, base: Addr, i: nat)
    requires i < cfg.poolSize
    ensures PoolBlocks(cfg, base)[i] == base + i * cfg.blockSize
    ensures base <= PoolBlocks(cfg, base)[i]
    ensures PoolBlocks(cfg, base)[i] + cfg.blockSize <= base + cfg.PoolBytes()
  {
    MulMonotone(i + 1, cfg.poolSize, cfg.blockSize);
  }

  lemma BlocksOfPoolDisjoint(cfg: Config, base: Addr, i: nat, j: nat)
    requires i < j < cfg.poolSize
    ensures Disjoint(cfg, PoolBlocks(cfg, base)[i], PoolBlocks(cfg, base)[j])
  {
    BlockOfPool(cfg, base, i);
    BlockOfPool(cfg, base, j);
    MulMonotone(i + 1, j, cfg.blockSize);
  }

  /** The `k`-th carved block lies inside some pool. */
  lemma {:induction false} CarvedInsidePool(cfg: Config, pools: seq<Addr>, k: nat) returns (p: nat)
    requires k < |Carve(cfg, pools)|
    ensures p < |pools| && pools[p] <= Carve(cfg, pools)[k]
    ensures Carve(cfg, pools)[k] + cfg.blockSize <= pools[p] + cfg.PoolBytes()
  {
    var last := |pools| - 1;
    var before := Carve(cfg, pools[..last]);
    if k < |before| {
      p := CarvedInsidePool(cfg, pools[..last], k);
    } else {
      p := last;
      BlockOfPool(cfg, pools[last], k - |before|);
    }
  }

  /** Two carved blocks at different positions do not overlap. */
  lemma {:induction false} CarvedSpaced(cfg: Config, pools: seq<Addr>, i: nat, j: nat)
    requires PoolsApart(cfg, pools) && i < j < |Carve(cfg, pools)|
    ensures Disjoint(cfg, Carve(cfg, pools)[i], Carve(cfg, pools)[j])
  {
    var last := |pools| - 1;
    var before := Carve(cfg, pools[..last]);
    if j < |before| {
      CarvedSpaced(cfg, pools[..last], i, j);
    } else if i < |before| {
      var p := CarvedInsidePool(cfg, pools[..last], i);
      assert Apart(cfg, pools[p], pools[last]);
      BlockOfPool(cfg, pools[last], j - |before|);
    } else {
      BlocksOfPoolDisjoint(cfg, pools[last], i - |before|, j - |before|);
    }
  }

  // ----- no block has two owners -----

  ghost function Is(x: Addr): Addr -> int {
    (y: Addr) => if y == x then 1 else 0
  }

  lemma {:induction false} AtMostOnce(c: seq<Addr>, x: Addr)
    requires forall i, j :: 0 <= i < j < |c| ==> c[i] != c[j]
    ensures SeqSum(c, Is(x)) <= 1
    ensures x !in c ==> SeqSum(c, Is(x)) == 0
  {
    if c != [] {
      AtMostOnce(c[..|c| - 1], x);
    }
  }

  lemma {:induction false} OccursWhenCounted(c: seq<Addr>, x: Addr)
    requires SeqSum(c, Is(x)) > 0
    ensures x in c
  {
    if x != c[|c| - 1] {
      OccursWhenCounted(c[..|c| - 1], x);
    }
  }

  lemma CountedWhenOccurs(c: seq<Addr>, x: Addr)
    ensures SeqSum(c, Is(x)) >= 0
    ensures x in c ==> SeqSum(c, Is(x)) >= 1
  {
    SeqSumNonNegative(c, Is(x));
  }

  lemma OverNonNegative<A>(s: seq<Allocation<A>>, x: Addr)
    ensures SeqSum(s, Over(Is(x))) >= 0
    ensures forall a :: a in s ==> 0 <= SeqSum(a.blocks, Is(x)) <= SeqSum(s, Over(Is(x)))
  {
    forall a | a in s
      ensures Over(Is(x))(a) >= 0
    {
      CountedWhenOccurs(a.blocks, x);
    }
    SeqSumNonNegative(s, Over(Is(x)));
    assert forall a :: a in s ==> Over(Is(x))(a) == SeqSum(a.blocks, Is(x));
  }

  /** Wherever an address turns up, it is a carved block, and it turns up once. */
  lemma OnePlace<A>(cfg: Config, st: HostState<A>, x: Addr)
    requires cfg.Valid() && Owned(cfg, st)
    ensures 0 <= Everywhere(st, Is(x)) <= 1
    ensures Everywhere(st, Is(x)) == 1 ==> x in Carve(cfg, st.pools)
    ensures SeqSum(st.free, Is(x)) >= 0 && SeqSum(BusyBlocks(st), Is(x)) >= 0 && SeqSum(st.returned, Is(x)) >= 0
    ensures SeqSum(st.live, Over(Is(x))) >= 0 && SeqSum(st.lost, Over(Is(x))) >= 0
  {
    var c := Carve(cfg, st.pools);
    forall i, j | 0 <= i < j < |c|
      ensures c[i] != c[j]
    {
      CarvedSpaced(cfg, st.pools, i, j);
    }
    AtMostOnce(c, x);
    CountedWhenOccurs(st.free, x);
    CountedWhenOccurs(BusyBlocks(st), x);
    CountedWhenOccurs(st.returned, x);
    OverNonNegative(st.live, x);
    OverNonNegative(st.lost, x);
    assert Everywhere(st, Is(x)) == SeqSum(c, Is(x));
    if SeqSum(c, Is(x)) > 0 { OccursWhenCounted(c, x); }
  }

  lemma TwoPositions(c: seq<Addr>, a: nat, b: nat)
    requires a < b < |c| && c[a] == c[b]
    ensures SeqSum(c, Is(c[a])) >= 2
  {
    var x := c[a];
    SeqSumRemoveAt(c, b, Is(x));
    assert RemoveAt(c, b)[a] == x;
    CountedWhenOccurs(RemoveAt(c, b), x);
  }

  lemma TwoHandles<A>(s: seq<Allocation<A>>, i: nat, j: nat, x: Addr)
    requires i < |s| && j < |s| && i != j && x in s[i].blocks && x in s[j].blocks
    ensures SeqSum(s, Over(Is(x))) >= 2
  {
    var rest := RemoveAt(s, j);
    SeqSumRemoveAt(s, j, Over(Is(x)));
    OverNonNegative(rest, x);
    assert s[i] == rest[if i < j then i else i - 1];
    CountedWhenOccurs(s[i].blocks, x);
    CountedWhenOccurs(s[j].blocks, x);
  }

  lemma CarvedDisjoint(cfg: Config, pools: seq<Addr>, x: Addr, y: Addr)
    requires PoolsApart(cfg, pools) && x in Carve(cfg, pools) && y in Carve(cfg, pools) && x != y
    ensures Disjoint(cfg, x, y)
  {
    var c := Carve(cfg, pools);
    var i :| 0 <= i < |c| && c[i] == x;
    var j :| 0 <= j < |c| && c[j] == y;
    CarvedSpaced(cfg, pools, if i < j then i else j, if i < j then j else i);
  }

  /** The blocks of live handles are pairwise disjoint ranges: within one handle and between any
      two, so writing through one handle cannot change what another one holds. */
  lemma LiveBlocksDisjoint<A>(cfg: Config, st: HostState<A>, i: nat, a: nat, j: nat, b: nat)
    requires cfg.Valid() && Owned(cfg, st)
    requires i < |st.live| && j < |st.live| && a < |st.live[i].blocks| && b < |st.live[j].blocks|
    requires i != j || a != b
    ensures Disjoint(cfg, st.live[i].blocks[a], st.live[j].blocks[b])
  {
    var x, y := st.live[i].blocks[a], st.live[j].blocks[b];
    OnePlace(cfg, st, x);
    OnePlace(cfg, st, y);
    OverNonNegative(st.live, x);
    OverNonNegative(st.live, y);
    CountedWhenOccurs(st.live[i].blocks, x);
    CountedWhenOccurs(st.live[j].blocks, y);
    if x == y {
      if i == j {
        TwoPositions(st.live[i].blocks, if a < b then a else b, if a < b then b else a);
      } else {
        TwoHandles(st.live, i, j, x);
      }
    } else {
      CarvedDisjoint(cfg, st.pools, x, y);
    }
  }

  // ----- counting -----

  ghost function One(): Addr -> int {
    (y: Addr) => 1
  }

  lemma {:induction false} OnesAreLength(c: seq<Addr>)
    ensures SeqSum(c, One()) == |c|
  {
    if c != [] { OnesAreLength(c[..|c| - 1]); }
  }

  lemma {:induction false} CarveCount(cfg: Config, pools: seq<Addr>)
    ensures |Carve(cfg, pools)| == |pools| * cfg.poolSize
  {
    if pools != [] { CarveCount(cfg, pools[..|pools| - 1]); }
  }

  ghost function BlockCount<A>(): Allocation<A> -> int {
    (x: Allocation<A>) => |x.blocks|
  }

  lemma OverOneIsCount<A>(s: seq<Allocation<A>>)
    ensures SeqSum(s, Over(One())) == SeqSum(s, BlockCount())
  {
    forall x | x in s
      ensures Over(One())(x) == BlockCount()(x)
    {
      OnesAreLength(x.blocks);
    }
    SeqSumEqual(s, Over(One()), BlockCount());
  }

  /** Conservation of blocks: free + live + abandoned + in progress + given back = pools * pool size. */
  lemma BlockConservation<A>(cfg: Config, pools: seq<Addr>, ops: seq<Op<A>>)
    requires cfg.Valid() && PoolsApart(cfg, pools)
    ensures var st := Exec(cfg, InitialState(cfg, pools), ops);
            |st.free| + SeqSum(st.live, BlockCount()) + SeqSum(st.lost, BlockCount())
            + |BusyBlocks(st)| + |st.returned| == |st.pools| * cfg.poolSize
  {
    var st := Exec(cfg, InitialState(cfg, pools), ops);
    RunOwned(cfg, pools, ops);
    OverOneIsCount(st.live);
    OverOneIsCount(st.lost);
    CarveCount(cfg, st.pools);
    OnesAreLength(st.free);
    OnesAreLength(BusyBlocks(st));
    OnesAreLength(st.returned);
    OnesAreLength(Carve(cfg, st.pools));
    assert Everywhere(st, One()) == SeqSum(Carve(cfg, st.pools), One());
  }

  // ----- blocks given back are not reused -----

  lemma StepReturns<A>(cfg: Config, st: HostState<A>, op: Op<A>)
    requires cfg.Valid()
    ensures st.returned <= Next(cfg, st, op).returned
  {
  }

  lemma {:induction false} ReturnedGrows<A>(cfg: Config, st: HostState<A>, ops: seq<Op<A>>)
    requires cfg.Valid()
    ensures st.returned <= Exec(cfg, st, ops).returned
  {
    if ops != [] {
      ReturnedGrows(cfg, st, ops[..|ops| - 1]);
      StepReturns(cfg, Exec(cfg, st, ops[..|ops| - 1]), ops[|ops| - 1]);
    }
  }

  lemma {:induction false} ExecConcat<A>(cfg: Config, st: HostState<A>, ops: seq<Op<A>>, more: seq<Op<A>>)
    requires cfg.Valid()
    ensures Exec(cfg, st, ops + more) == Exec(cfg, Exec(cfg, st, ops), more)
  {
    if more == [] {
      assert ops + more == ops;
    } else {
      ExecConcat(cfg, st, ops, more[..|more| - 1]);
      assert (ops + more)[..|ops + more| - 1] == ops + more[..|more| - 1];
    }
  }

  /** A block given back is never handed out again: the code does not put it on the free list, so
      after any continuation of the run it is neither free nor in any handle. */
  lemma ReturnedNeverReissued<A>(cfg: Config, pools: seq<Addr>, ops: seq<Op<A>>, more: seq<Op<A>>, x: Addr)
    requires cfg.Valid() && PoolsApart(cfg, pools)
    requires x in Exec(cfg, InitialState(cfg, pools), ops).returned
    ensures var st := Exec(cfg, Exec(cfg, InitialState(cfg, pools), ops), more);
            x !in st.free && x !in BusyBlocks(st) && forall a :: a in st.live ==> x !in a.blocks
  {
    var st0 := Exec(cfg, InitialState<A>(cfg, pools), ops);
    var st := Exec(cfg, st0, more);
    ReturnedGrows(cfg, st0, more);
    ExecConcat(cfg, InitialState(cfg, pools), ops, more);
    RunOwned(cfg, pools, ops + more);
    OnePlace(cfg, st, x);
    CountedWhenOccurs(st.returned, x);
    CountedWhenOccurs(st.free, x);
    CountedWhenOccurs(BusyBlocks(st), x);
    OverNonNegative(st.live, x);
    forall a | a in st.live
      ensures x !in a.blocks
    {
      CountedWhenOccurs(a.blocks, x);
    }
  }
}
