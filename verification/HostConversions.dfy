/** Conversions of whole batches: what chains of the copy loops preserve, and why tables in
    different allocations of the host resource never disturb one another. */
module HostConversions {
  import opened Prelude
  import opened HostTables
  import HostLedger
  import HostBlocks

  // ----- chains of conversions -----

  /** Byte `k` of a table, read at block `k / blockSize`, offset `k mod blockSize`, if that is inside
      the blocks and the memory. */
  function ByteAt(mem: seq<Byte>, t: HostTable, k: nat): Option<Byte> {
    if t.blockSize > 0 && k / t.blockSize < |t.blocks| then
      var a := t.blocks[k / t.blockSize] + k % t.blockSize;
      if a < |mem| then Some(mem[a]) else None
    else None
  }

  lemma ByteAtMeans(mem: seq<Byte>, t: HostTable, k: nat)
    requires Placed(|mem|, t) && k < t.size
    ensures ByteAt(mem, t, k) == Some(Contents(mem, t)[k])
  {
    IndexInBlocks(t, k);
  }

  /** Two host tables hold the same bytes exactly when byte `k` at block `k / b2`, offset
      `k mod b2` of the one equals byte `k` at block `k / b1`, offset `k mod b1` of the other. */
  lemma SameBytesIff(before: seq<Byte>, t: HostTable, after: seq<Byte>, u: HostTable)
    requires Placed(|before|, t) && Placed(|after|, u) && t.size == u.size
    ensures forall k: nat | k < t.size :: ByteAt(before, t, k).Some? && ByteAt(after, u, k).Some?
    ensures Contents(after, u) == Contents(before, t) <==>
            forall k: nat | k < t.size :: ByteAt(after, u, k) == ByteAt(before, t, k)
  {
    var s, r := Contents(before, t), Contents(after, u);
    forall k: nat | k < t.size
      ensures ByteAt(before, t, k) == Some(s[k]) && ByteAt(after, u, k) == Some(r[k])
    {
      ByteAtMeans(before, t, k);
      ByteAtMeans(after, u, k);
    }
  }

  /** The blocks one host resource hands out for a table. */
  datatype Stop = Stop(blocks: seq<nat>, blockSize: nat)

  function At(stop: Stop, metadata: seq<Byte>, size: nat): HostTable {
    HostTable(stop.blocks, stop.blockSize, metadata, size)
  }

  /** Every stop has room for `size` bytes, apart from the blocks of the stop before it. */
  ghost predicate Route(limit: nat, stops: seq<Stop>, size: nat) {
    && (forall i :: 0 <= i < |stops| ==> Placed(limit, At(stops[i], [], size)))
    && (forall i :: 0 < i < |stops| ==> TablesApart(At(stops[i], [], size), At(stops[i - 1], [], size)))
  }

  lemma RouteAt(limit: nat, stops: seq<Stop>, size: nat, i: nat, metadata: seq<Byte>)
    requires Route(limit, stops, size) && i < |stops|
    ensures Placed(limit, At(stops[i], metadata, size))
    ensures i > 0 ==> TablesApart(At(stops[i], metadata, size), At(stops[i - 1], metadata, size))
  {
    var t := At(stops[i], [], size);
    assert Placed(limit, t);
    if i > 0 {
      assert TablesApart(t, At(stops[i - 1], [], size));
    }
  }

  /** Successive conversions of one batch: to the host, through any number of host memory spaces
      with any block sizes, and back to the device. The packed bytes and the metadata come back. */
  method ConvertThrough(mem: array<Byte>, p: Packed, stops: seq<Stop>) returns (q: Packed)
    requires stops != [] && Route(mem.Length, stops, |p.bytes|)
    modifies mem
    ensures q == p
  {
    RouteAt(mem.Length, stops, |p.bytes|, 0, p.metadata);
    var t, copies := GpuToHost(mem, p, stops[0].blocks, stops[0].blockSize);
    for i := 1 to |stops|
      invariant t == At(stops[i - 1], p.metadata, |p.bytes|)
      invariant Placed(mem.Length, t) && Contents(mem[..], t) == p.bytes
    {
      RouteAt(mem.Length, stops, |p.bytes|, i, p.metadata);
      t, copies := HostToHost(mem, t, stops[i].blocks, stops[i].blockSize);
    }
    q, copies := HostToGpu(mem, t);
  }

  // ----- tables in the blocks of the host resource -----

  ghost predicate PoolsInside(cfg: HostLedger.Config, pools: seq<nat>, limit: nat) {
    forall i :: 0 <= i < |pools| ==> pools[i] + cfg.PoolBytes() <= limit
  }

  /** A table of `size` bytes in the blocks of an allocation handle. */
  function TableIn<A>(cfg: HostLedger.Config, x: HostLedger.Allocation<A>, metadata: seq<Byte>, size: nat): HostTable {
    HostTable(x.blocks, cfg.blockSize, metadata, size)
  }

  /** The handle was allocated for a table of that size. */
  predicate Sized<A>(cfg: HostLedger.Config, x: HostLedger.Allocation<A>, size: nat)
    requires cfg.Valid()
  {
    |x.blocks| == BlocksNeeded(size, cfg.blockSize)
  }

  lemma LiveBlockInside<A>(cfg: HostLedger.Config, st: HostLedger.HostState<A>, limit: nat, i: nat, a: nat)
    requires cfg.Valid() && HostBlocks.Owned(cfg, st) && PoolsInside(cfg, st.pools, limit)
    requires i < |st.live| && a < |st.live[i].blocks|
    ensures st.live[i].blocks[a] + cfg.blockSize <= limit
  {
    var x := st.live[i].blocks[a];
    HostBlocks.OnePlace(cfg, st, x);
    HostBlocks.OverNonNegative(st.live, x);
    HostBlocks.CountedWhenOccurs(st.live[i].blocks, x);
    var c := HostLedger.Carve(cfg, st.pools);
    var k :| 0 <= k < |c| && c[k] == x;
    var p := HostBlocks.CarvedInsidePool(cfg, st.pools, k);
  }

  /** The blocks of a live handle are a place where a table of its size can be kept. */
  lemma HandlePlaced<A>(cfg: HostLedger.Config, st: HostLedger.HostState<A>, limit: nat, i: nat,
                        metadata: seq<Byte>, size: nat)
    requires cfg.Valid() && HostBlocks.Owned(cfg, st) && PoolsInside(cfg, st.pools, limit)
    requires i < |st.live| && Sized(cfg, st.live[i], size)
    ensures Placed(limit, TableIn(cfg, st.live[i], metadata, size))
  {
    forall a | 0 <= a < |st.live[i].blocks|
      ensures st.live[i].blocks[a] + cfg.blockSize <= limit
    {
      LiveBlockInside(cfg, st, limit, i, a);
    }
    forall a, b | 0 <= a < b < |st.live[i].blocks|
      ensures RangesApart(st.live[i].blocks[a], st.live[i].blocks[b], cfg.blockSize, cfg.blockSize)
    {
      HostBlocks.LiveBlocksDisjoint(cfg, st, i, a, i, b);
    }
  }

  lemma HandlesApart<A>(cfg: HostLedger.Config, st: HostLedger.HostState<A>, i: nat, j: nat, t: HostTable, u: HostTable)
    requires cfg.Valid() && HostBlocks.Owned(cfg, st) && i < |st.live| && j < |st.live| && i != j
    requires t.blocks == st.live[i].blocks && u.blocks == st.live[j].blocks
    requires t.blockSize == u.blockSize == cfg.blockSize
    ensures TablesApart(t, u)
  {
    forall a, b | 0 <= a < |t.blocks| && 0 <= b < |u.blocks|
      ensures RangesApart(t.blocks[a], u.blocks[b], t.blockSize, u.blockSize)
    {
      HostBlocks.LiveBlocksDisjoint(cfg, st, i, a, j, b);
    }
  }

  /** After any run of the host resource, in any interleaving: each live handle can hold its
      table, and a conversion that writes into one handle leaves the bytes stored in every other
      live handle as they were. */
  lemma ConversionsIsolated<A>(cfg: HostLedger.Config, pools: seq<nat>, ops: seq<HostLedger.Op<A>>,
                               i: nat, iSize: nat, iMeta: seq<Byte>, j: nat, jSize: nat, jMeta: seq<Byte>,
                               before: seq<Byte>, after: seq<Byte>)
    requires cfg.Valid() && HostBlocks.PoolsApart(cfg, pools)
    requires var st := HostLedger.Exec(cfg, HostLedger.InitialState(cfg, pools), ops);
             && PoolsInside(cfg, st.pools, |before|)
             && i < |st.live| && j < |st.live| && i != j
             && Sized(cfg, st.live[i], iSize) && Sized(cfg, st.live[j], jSize)
             && OnlyInside(before, after, TableIn(cfg, st.live[i], iMeta, iSize))
    ensures var st := HostLedger.Exec(cfg, HostLedger.InitialState(cfg, pools), ops);
            && Placed(|before|, TableIn(cfg, st.live[i], iMeta, iSize))
            && Placed(|before|, TableIn(cfg, st.live[j], jMeta, jSize))
            && Contents(after, TableIn(cfg, st.live[j], jMeta, jSize))
               == Contents(before, TableIn(cfg, st.live[j], jMeta, jSize))
  {
    var st := HostLedger.Exec(cfg, HostLedger.InitialState<A>(cfg, pools), ops);
    HostBlocks.RunOwned(cfg, pools, ops);
    HandlePlaced(cfg, st, |before|, i, iMeta, iSize);
    HandlePlaced(cfg, st, |before|, j, jMeta, jSize);
    var t, u := TableIn(cfg, st.live[i], iMeta, iSize), TableIn(cfg, st.live[j], jMeta, jSize);
    HandlesApart(cfg, st, i, j, t, u);
    OthersKeepContents(before, after, t, u);
  }
}
