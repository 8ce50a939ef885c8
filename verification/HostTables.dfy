/** The copy loops of src/data/representation_converter.cpp over tables scattered across
    fixed-size blocks of one address space. */
module HostTables {
  import opened Prelude
  import opened HostLedger

  type Byte = bv8

  /** A packed device table: one flat buffer and its metadata. */
  datatype Packed = Packed(bytes: seq<Byte>, metadata: seq<Byte>)

  /** `host_table_allocation`: blocks, their common size, metadata, and the number of bytes stored. */
  datatype HostTable = HostTable(blocks: seq<Addr>, blockSize: nat, metadata: seq<Byte>, size: nat)

  /** The number of blocks an allocation for `size` bytes has; an empty handle has block size 0. */
  function BlocksNeeded(size: nat, blockSize: nat): nat
    requires size > 0 ==> blockSize > 0
  {
    if size == 0 then 0 else CeilDiv(size, blockSize)
  }

  /** The blocks lie inside the memory, do not overlap, and are as many as the size needs. */
  ghost predicate Placed(limit: nat, t: HostTable) {
    && (t.size > 0 ==> t.blockSize > 0)
    && |t.blocks| == BlocksNeeded(t.size, t.blockSize)
    && (forall i :: 0 <= i < |t.blocks| ==> t.blocks[i] + t.blockSize <= limit)
    && (forall i, j :: 0 <= i < j < |t.blocks| ==> RangesApart(t.blocks[i], t.blocks[j], t.blockSize, t.blockSize))
  }

  /** No block of one table overlaps a block of the other. */
  ghost predicate TablesApart(t: HostTable, u: HostTable) {
    forall i, j :: 0 <= i < |t.blocks| && 0 <= j < |u.blocks| ==>
      RangesApart(t.blocks[i], u.blocks[j], t.blockSize, u.blockSize)
  }

  lemma IndexInBlocks(t: HostTable, k: nat)
    requires t.blockSize > 0 && |t.blocks| == BlocksNeeded(t.size, t.blockSize) && k < t.size
    ensures 0 <= k / t.blockSize < |t.blocks| && 0 <= k % t.blockSize < t.blockSize
  {
    ChunkOfIndex(k, t.size, t.blockSize);
  }

  /** Where byte `k` of the table lives: block `k / blockSize`, offset `k mod blockSize`. */
  ghost function Locate(t: HostTable, k: nat): Addr
    requires t.blockSize > 0 && |t.blocks| == BlocksNeeded(t.size, t.blockSize) && k < t.size
  {
    IndexInBlocks(t, k);
    t.blocks[k / t.blockSize] + k % t.blockSize
  }

  lemma LocateInChunk(t: HostTable, block: nat, offset: nat, j: nat)
    requires t.blockSize > 0 && |t.blocks| == BlocksNeeded(t.size, t.blockSize)
    requires block * t.blockSize + offset + j < t.size && offset + j < t.blockSize
    ensures block < |t.blocks|
    ensures Locate(t, block * t.blockSize + offset + j) == t.blocks[block] + offset + j
  {
    DivModUnique(block * t.blockSize + offset + j, t.blockSize, block, offset + j);
    IndexInBlocks(t, block * t.blockSize + offset + j);
  }

  lemma LocateBounds(limit: nat, t: HostTable, k: nat)
    requires Placed(limit, t) && k < t.size
    ensures Locate(t, k) < limit
  {
    IndexInBlocks(t, k);
  }

  lemma AllLocated(limit: nat, t: HostTable)
    requires Placed(limit, t)
    ensures forall k: nat :: k < t.size ==> Locate(t, k) < limit
  {
    forall k: nat | k < t.size
      ensures Locate(t, k) < limit
    {
      LocateBounds(limit, t, k);
    }
  }

  /** Different bytes of one table live at different addresses. */
  lemma LocateDistinct(limit: nat, t: HostTable, k: nat, l: nat)
    requires Placed(limit, t) && k < l < t.size
    ensures Locate(t, k) != Locate(t, l)
  {
    IndexInBlocks(t, k);
    IndexInBlocks(t, l);
    var q, r := k / t.blockSize, l / t.blockSize;
    assert k == q * t.blockSize + k % t.blockSize;
    assert l == r * t.blockSize + l % t.blockSize;
    if q != r {
      assert RangesApart(t.blocks[if q < r then q else r], t.blocks[if q < r then r else q], t.blockSize, t.blockSize);
    }
  }

  /** The bytes a placed table holds in a memory. */
  ghost function Contents(mem: seq<Byte>, t: HostTable): (s: seq<Byte>)
    requires Placed(|mem|, t)
    ensures |s| == t.size
    ensures forall k :: 0 <= k < t.size ==> Locate(t, k) < |mem| && s[k] == mem[Locate(t, k)]
  {
    AllLocated(|mem|, t);
    seq(t.size, (k: nat) requires k < t.size && Locate(t, k) < |mem| => mem[Locate(t, k)])
  }

  ghost predicate InBlock(t: HostTable, i: nat, a: Addr) {
    i < |t.blocks| && t.blocks[i] <= a < t.blocks[i] + t.blockSize
  }

  /** Only bytes inside the blocks of `t` differ. */
  ghost predicate OnlyInside(before: seq<Byte>, after: seq<Byte>, t: HostTable) {
    && |after| == |before|
    && forall a :: 0 <= a < |before| && after[a] != before[a] ==>
         exists i: nat :: InBlock(t, i, a)
  }

  /** So a table that is apart from it keeps its contents. */
  lemma OthersKeepContents(before: seq<Byte>, after: seq<Byte>, t: HostTable, u: HostTable)
    requires OnlyInside(before, after, t) && Placed(|before|, u) && TablesApart(t, u)
    ensures Contents(after, u) == Contents(before, u)
  {
    forall k | 0 <= k < u.size
      ensures Contents(after, u)[k] == Contents(before, u)[k]
    {
      var a := Locate(u, k);
      IndexInBlocks(u, k);
      forall i: nat
        ensures !InBlock(t, i, a)
      {
        assert i < |t.blocks| ==> RangesApart(t.blocks[i], u.blocks[k / u.blockSize], t.blockSize, u.blockSize);
      }
    }
  }

  // ----- what the loops keep -----

  /** `after` is `before` with `bytes[from..from + len]` written at address `dst`. */
  ghost predicate Written(before: seq<Byte>, after: seq<Byte>, dst: Addr, bytes: seq<Byte>, from: nat, len: nat) {
    && |after| == |before| && dst + len <= |before| && from + len <= |bytes|
    && (forall a {:trigger after[a]} :: 0 <= a < |after| ==>
          after[a] == if dst <= a < dst + len then bytes[from + (a - dst)] else before[a])
  }

  /** The first `copied` bytes are in place. */
  ghost predicate Arrived(now: seq<Byte>, t: HostTable, bytes: seq<Byte>, copied: nat)
    requires Placed(|now|, t) && copied <= t.size == |bytes|
  {
    forall k :: 0 <= k < copied ==> Locate(t, k) < |now| && now[Locate(t, k)] == bytes[k]
  }

  /** A chunk written behind what is already stored overwrites none of it. */
  lemma ChunkKeepsEarlier(limit: nat, t: HostTable, block: nat, offset: nat, len: nat)
    requires Placed(limit, t) && t.blockSize > 0
    requires offset + len <= t.blockSize && block * t.blockSize + offset + len <= t.size && len > 0
    ensures block < |t.blocks|
    ensures forall k :: 0 <= k < block * t.blockSize + offset ==>
              !(t.blocks[block] + offset <= Locate(t, k) < t.blocks[block] + offset + len)
  {
    LocateInChunk(t, block, offset, 0);
    forall k | 0 <= k < block * t.blockSize + offset
      ensures !(t.blocks[block] + offset <= Locate(t, k) < t.blocks[block] + offset + len)
    {
      var j := Locate(t, k) - t.blocks[block] - offset;
      if 0 <= j < len {
        LocateInChunk(t, block, offset, j);
        LocateDistinct(limit, t, k, block * t.blockSize + offset + j);
      }
    }
  }

  /** The chunk that ends at `end` starts block `q`. */
  lemma CountChunks(end: nat, b: nat, q: nat, len: nat)
    requires 0 < len <= b && end == q * b + len
    ensures CeilDiv(end, b) == q + 1
    ensures len == b ==> end == (q + 1) * b
  {
    var n := CeilDiv(end, b);
    if n <= q { MulMonotone(n, q, b); }
    if n >= q + 2 { MulMonotone(q + 2, n, b); }
    assert (q + 2) * b == q * b + b + b;
  }

  /** Writing the next chunk into its block puts its bytes in place and keeps the earlier ones. */
  lemma ArriveChunk(before: seq<Byte>, after: seq<Byte>, t: HostTable, bytes: seq<Byte>,
                    block: nat, offset: nat, copied: nat, len: nat)
    requires Placed(|before|, t) && t.blockSize > 0 && copied + len <= t.size == |bytes|
    requires copied == block * t.blockSize + offset && 0 < len && offset + len <= t.blockSize
    requires block < |t.blocks|
    requires Arrived(before, t, bytes, copied)
    requires Written(before, after, t.blocks[block] + offset, bytes, copied, len)
    ensures Arrived(after, t, bytes, copied + len)
  {
    ChunkKeepsEarlier(|before|, t, block, offset, len);
    forall k | 0 <= k < copied + len
      ensures Locate(t, k) < |after| && after[Locate(t, k)] == bytes[k]
    {
      LocateBounds(|before|, t, k);
      if k >= copied {
        LocateInChunk(t, block, offset, k - copied);
      }
    }
  }

  lemma WriteStaysInside(original: seq<Byte>, before: seq<Byte>, after: seq<Byte>, t: HostTable,
                         block: nat, offset: nat, bytes: seq<Byte>, from: nat, len: nat)
    requires block < |t.blocks| && offset + len <= t.blockSize
    requires OnlyInside(original, before, t) && Written(before, after, t.blocks[block] + offset, bytes, from, len)
    ensures OnlyInside(original, after, t)
  {
    forall a | 0 <= a < |original| && after[a] != original[a]
      ensures exists i: nat :: InBlock(t, i, a)
    {
      if t.blocks[block] + offset <= a < t.blocks[block] + offset + len {
        assert InBlock(t, block, a);
      }
    }
  }

  lemma AllArrived(now: seq<Byte>, t: HostTable, bytes: seq<Byte>)
    requires Placed(|now|, t) && t.size == |bytes| && Arrived(now, t, bytes, t.size)
    ensures Contents(now, t) == bytes
  {
  }

  /** `bytes[from..from + len]` can be read at address `src`. */
  ghost predicate Readable(mem: seq<Byte>, src: Addr, bytes: seq<Byte>, from: nat, len: nat) {
    && src + len <= |mem| && from + len <= |bytes|
    && (forall a {:trigger mem[a]} :: src <= a < src + len ==> mem[a] == bytes[from + (a - src)])
  }

  /** The bytes of a chunk of a source table can be read from its block. */
  lemma SourceChunk(mem: seq<Byte>, t: HostTable, block: nat, offset: nat, copied: nat, len: nat)
    requires Placed(|mem|, t) && t.blockSize > 0 && copied + len <= t.size && 0 < len
    requires copied == block * t.blockSize + offset && offset + len <= t.blockSize
    ensures block < |t.blocks| && Readable(mem, t.blocks[block] + offset, Contents(mem, t), copied, len)
  {
    LocateInChunk(t, block, offset, 0);
    var s := Contents(mem, t);
    forall a | t.blocks[block] + offset <= a < t.blocks[block] + offset + len
      ensures mem[a] == s[copied + (a - (t.blocks[block] + offset))]
    {
      LocateInChunk(t, block, offset, a - (t.blocks[block] + offset));
    }
  }

  /** Moving on inside the block, or to the next one. */
  lemma NextChunk(q: nat, b: nat, offset: nat, len: nat)
    requires offset + len <= b
    ensures q * b + offset + len == if offset + len == b then (q + 1) * b else q * b + (offset + len)
  {
  }

  // ----- the conversions -----

  /** `cudaMemcpyAsync` from the device, or `memcpy` out of another buffer. */
  method CopyIn(mem: array<Byte>, dst: nat, bytes: seq<Byte>, from: nat, len: nat)
    requires dst + len <= mem.Length && from + len <= |bytes|
    modifies mem
    ensures Written(old(mem[..]), mem[..], dst, bytes, from, len)
  {
    forall i | 0 <= i < len {
      mem[dst + i] := bytes[from + i];
    }
  }

  /** One iteration of the scatter loop. */
  method PutChunk(mem: array<Byte>, t: HostTable, bytes: seq<Byte>, block: nat, offset: nat, copied: nat, len: nat,
                  ghost original: seq<Byte>)
    requires Placed(mem.Length, t) && t.blockSize > 0 && copied + len <= t.size == |bytes|
    requires copied == block * t.blockSize + offset && 0 < len && offset + len <= t.blockSize
    requires Arrived(mem[..], t, bytes, copied) && OnlyInside(original, mem[..], t)
    modifies mem
    ensures Arrived(mem[..], t, bytes, copied + len) && OnlyInside(original, mem[..], t)
  {
    LocateInChunk(t, block, offset, 0);
    ghost var before := mem[..];
    CopyIn(mem, t.blocks[block] + offset, bytes, copied, len);
    ArriveChunk(before, mem[..], t, bytes, block, offset, copied, len);
    WriteStaysInside(original, before, mem[..], t, block, offset, bytes, copied, len);
  }

  /** `convert_gpu_to_host`: scatters the packed bytes over freshly allocated blocks. */
  method GpuToHost(mem: array<Byte>, p: Packed, blocks: seq<Addr>, blockSize: nat)
    returns (t: HostTable, copies: nat)
    requires Placed(mem.Length, HostTable(blocks, blockSize, p.metadata, |p.bytes|))
    modifies mem
    ensures t == HostTable(blocks, blockSize, p.metadata, |p.bytes|)
    ensures Contents(mem[..], t) == p.bytes
    ensures OnlyInside(old(mem[..]), mem[..], t)
    ensures copies == BlocksNeeded(|p.bytes|, blockSize)
  {
    t := HostTable(blocks, blockSize, p.metadata, |p.bytes|);
    var blockIndex, blockOffset, sourceOffset := 0, 0, 0;
    copies := 0;
    while sourceOffset < |p.bytes|
      invariant 0 <= sourceOffset <= |p.bytes|
      invariant sourceOffset == blockIndex * blockSize + blockOffset
      invariant sourceOffset < |p.bytes| ==> blockOffset == 0 && copies == blockIndex
      invariant sourceOffset == |p.bytes| ==> copies == BlocksNeeded(|p.bytes|, blockSize)
      invariant Arrived(mem[..], t, p.bytes, sourceOffset)
      invariant OnlyInside(old(mem[..]), mem[..], t)
    {
      var remaining := |p.bytes| - sourceOffset;
      var bytesToCopy := Min(remaining, blockSize - blockOffset);
      PutChunk(mem, t, p.bytes, blockIndex, blockOffset, sourceOffset, bytesToCopy, old(mem[..]));
      CountChunks(sourceOffset + bytesToCopy, blockSize, blockIndex, bytesToCopy);
      sourceOffset := sourceOffset + bytesToCopy;
      blockOffset := blockOffset + bytesToCopy;
      copies := copies + 1;
      if blockOffset == blockSize {
        blockIndex := blockIndex + 1;
        blockOffset := 0;
      }
    }
    AllArrived(mem[..], t, p.bytes);
  }

  /** Appending the next chunk of the table to what the buffer already holds of it. */
  lemma GatherChunk(before: seq<Byte>, after: seq<Byte>, mem: seq<Byte>, t: HostTable,
                    block: nat, offset: nat, copied: nat, len: nat)
    requires Placed(|mem|, t) && t.blockSize > 0 && copied + len <= t.size == |before|
    requires copied == block * t.blockSize + offset && 0 < len && offset + len <= t.blockSize && block < |t.blocks|
    requires before[..copied] == Contents(mem, t)[..copied]
    requires Written(before, after, copied, mem, t.blocks[block] + offset, len)
    ensures after[..copied + len] == Contents(mem, t)[..copied + len]
  {
    var s := Contents(mem, t);
    SourceChunk(mem, t, block, offset, copied, len);
    forall k | 0 <= k < copied + len
      ensures after[k] == s[k]
    {
      if k < copied {
        assert after[k] == before[..copied][k] == s[..copied][k];
      } else {
        assert after[k] == mem[t.blocks[block] + offset + (k - copied)];
      }
    }
  }

  /** One iteration of the gather loop. */
  method GetChunk(buffer: array<Byte>, mem: array<Byte>, t: HostTable, block: nat, offset: nat, copied: nat, len: nat)
    requires Placed(mem.Length, t) && t.blockSize > 0 && copied + len <= t.size == buffer.Length && buffer != mem
    requires copied == block * t.blockSize + offset && 0 < len && offset + len <= t.blockSize
    requires buffer[..copied] == Contents(mem[..], t)[..copied]
    modifies buffer
    ensures buffer[..copied + len] == Contents(mem[..], t)[..copied + len]
  {
    LocateInChunk(t, block, offset, 0);
    ghost var before := buffer[..];
    CopyIn(buffer, copied, mem[..], t.blocks[block] + offset, len);
    assert before[..copied] == old(buffer[..copied]);
    GatherChunk(before, buffer[..], mem[..], t, block, offset, copied, len);
    assert buffer[..][..copied + len] == buffer[..copied + len];
  }

  /** `convert_host_to_gpu`: gathers the blocks into one fresh device buffer. */
  method HostToGpu(mem: array<Byte>, t: HostTable) returns (p: Packed, copies: nat)
    requires Placed(mem.Length, t)
    ensures p == Packed(Contents(mem[..], t), t.metadata)
    ensures copies == BlocksNeeded(t.size, t.blockSize)
  {
    var buffer := new Byte[t.size];
    var blockIndex, blockOffset, dstOffset := 0, 0, 0;
    copies := 0;
    while dstOffset < t.size
      invariant 0 <= dstOffset <= t.size
      invariant dstOffset == blockIndex * t.blockSize + blockOffset
      invariant dstOffset < t.size ==> blockOffset == 0 && copies == blockIndex
      invariant dstOffset == t.size ==> copies == BlocksNeeded(t.size, t.blockSize)
      invariant mem[..] == old(mem[..])
      invariant buffer[..dstOffset] == Contents(mem[..], t)[..dstOffset]
    {
      var remaining := t.size - dstOffset;
      var available := t.blockSize - blockOffset;
      var bytesToCopy := Min(remaining, available);
      GetChunk(buffer, mem, t, blockIndex, blockOffset, dstOffset, bytesToCopy);
      CountChunks(dstOffset + bytesToCopy, t.blockSize, blockIndex, bytesToCopy);
      dstOffset := dstOffset + bytesToCopy;
      blockOffset := blockOffset + bytesToCopy;
      copies := copies + 1;
      if blockOffset == t.blockSize {
        blockIndex := blockIndex + 1;
        blockOffset := 0;
      }
    }
    assert buffer[..] == buffer[..t.size];
    p := Packed(buffer[..], t.metadata);
  }

  /** `memcpy` between two ranges of one memory that do not overlap. */
  method CopyWithin(mem: array<Byte>, dst: nat, src: nat, len: nat, ghost bytes: seq<Byte>, ghost from: nat)
    requires dst + len <= mem.Length && RangesApart(dst, src, len, len) && Readable(mem[..], src, bytes, from, len)
    modifies mem
    ensures Written(old(mem[..]), mem[..], dst, bytes, from, len)
  {
    forall i | 0 <= i < len {
      mem[dst + i] := mem[src + i];
    }
    forall a | dst <= a < dst + len
      ensures mem[a] == bytes[from + (a - dst)]
    {
      assert mem[a] == old(mem[..])[src + (a - dst)];
    }
  }

  /** Writing elsewhere leaves the source chunk of the original contents readable. */
  lemma SourceStillReadable(original: seq<Byte>, now: seq<Byte>, t: HostTable, u: HostTable,
                            block: nat, offset: nat, copied: nat, len: nat)
    requires Placed(|original|, t) && OnlyInside(original, now, u) && TablesApart(u, t)
    requires t.blockSize > 0 && copied + len <= t.size && 0 < len
    requires copied == block * t.blockSize + offset && offset + len <= t.blockSize
    ensures block < |t.blocks| && Readable(now, t.blocks[block] + offset, Contents(original, t), copied, len)
  {
    OthersKeepContents(original, now, u, t);
    SourceChunk(now, t, block, offset, copied, len);
  }

  /** The source and the destination chunk of one step do not overlap. */
  lemma ChunksApart(t: HostTable, u: HostTable, i: nat, j: nat, srcOffset: nat, dstOffset: nat, len: nat)
    requires TablesApart(u, t) && i < |t.blocks| && j < |u.blocks|
    requires srcOffset + len <= t.blockSize && dstOffset + len <= u.blockSize
    ensures RangesApart(u.blocks[j] + dstOffset, t.blocks[i] + srcOffset, len, len)
  {
    assert RangesApart(u.blocks[j], t.blocks[i], u.blockSize, t.blockSize);
  }

  /** Where one step of the re-chunking loop stands: the next `len` bytes lie in one source block
      and in one destination block. */
  ghost predicate Aligned(t: HostTable, u: HostTable, srcIndex: nat, srcOffset: nat,
                          dstIndex: nat, dstOffset: nat, copied: nat, len: nat) {
    && 0 < len && copied + len <= t.size == u.size
    && copied == srcIndex * t.blockSize + srcOffset && srcOffset + len <= t.blockSize
    && copied == dstIndex * u.blockSize + dstOffset && dstOffset + len <= u.blockSize
  }

  /** What the `memcpy` of such a step needs. */
  lemma StepIsSafe(original: seq<Byte>, now: seq<Byte>, t: HostTable, u: HostTable, srcIndex: nat, srcOffset: nat,
                   dstIndex: nat, dstOffset: nat, copied: nat, len: nat)
    requires Placed(|original|, t) && Placed(|original|, u) && OnlyInside(original, now, u) && TablesApart(u, t)
    requires Aligned(t, u, srcIndex, srcOffset, dstIndex, dstOffset, copied, len)
    ensures srcIndex < |t.blocks| && dstIndex < |u.blocks|
    ensures u.blocks[dstIndex] + dstOffset + len <= |now|
    ensures Readable(now, t.blocks[srcIndex] + srcOffset, Contents(original, t), copied, len)
    ensures RangesApart(u.blocks[dstIndex] + dstOffset, t.blocks[srcIndex] + srcOffset, len, len)
  {
    SourceStillReadable(original, now, t, u, srcIndex, srcOffset, copied, len);
    LocateInChunk(u, dstIndex, dstOffset, 0);
    ChunksApart(t, u, srcIndex, dstIndex, srcOffset, dstOffset, len);
  }

  /** One iteration of the re-chunking loop: source and destination chunk, whichever ends first. */
  method MoveChunk(mem: array<Byte>, u: HostTable, src: nat, dstIndex: nat, dstOffset: nat, copied: nat, len: nat,
                   ghost bytes: seq<Byte>, ghost original: seq<Byte>)
    requires Placed(mem.Length, u) && 0 < len && copied + len <= u.size == |bytes|
    requires copied == dstIndex * u.blockSize + dstOffset && dstOffset + len <= u.blockSize && dstIndex < |u.blocks|
    requires RangesApart(u.blocks[dstIndex] + dstOffset, src, len, len) && Readable(mem[..], src, bytes, copied, len)
    requires Arrived(mem[..], u, bytes, copied) && OnlyInside(original, mem[..], u)
    modifies mem
    ensures Arrived(mem[..], u, bytes, copied + len) && OnlyInside(original, mem[..], u)
  {
    ghost var before := mem[..];
    CopyWithin(mem, u.blocks[dstIndex] + dstOffset, src, len, bytes, copied);
    ArriveChunk(before, mem[..], u, bytes, dstIndex, dstOffset, copied, len);
    WriteStaysInside(original, before, mem[..], u, dstIndex, dstOffset, bytes, copied, len);
  }

  method MoveAligned(mem: array<Byte>, t: HostTable, u: HostTable, srcIndex: nat, srcOffset: nat,
                     dstIndex: nat, dstOffset: nat, copied: nat, len: nat,
                     ghost bytes: seq<Byte>, ghost original: seq<Byte>)
    requires |original| == mem.Length && Placed(mem.Length, t) && Placed(mem.Length, u) && TablesApart(u, t)
    requires Aligned(t, u, srcIndex, srcOffset, dstIndex, dstOffset, copied, len)
    requires bytes == Contents(original, t)
    requires Arrived(mem[..], u, bytes, copied) && OnlyInside(original, mem[..], u)
    modifies mem
    ensures Arrived(mem[..], u, bytes, copied + len) && OnlyInside(original, mem[..], u)
  {
    StepIsSafe(original, mem[..], t, u, srcIndex, srcOffset, dstIndex, dstOffset, copied, len);
    MoveChunk(mem, u, t.blocks[srcIndex] + srcOffset, dstIndex, dstOffset, copied, len, bytes, original);
  }

  /** `convert_host_to_host`: re-chunks a table into blocks of another size. Afterwards byte `k`
      sits at block `k / blockSize`, offset `k mod blockSize` of the new table, the old table is
      untouched, and the number of copies is bounded by the block boundaries crossed. */
  method HostToHost(mem: array<Byte>, t: HostTable, blocks: seq<Addr>, blockSize: nat)
    returns (u: HostTable, copies: nat)
    requires Placed(mem.Length, t) && Placed(mem.Length, HostTable(blocks, blockSize, t.metadata, t.size))
    requires TablesApart(HostTable(blocks, blockSize, t.metadata, t.size), t)
    modifies mem
    ensures u == HostTable(blocks, blockSize, t.metadata, t.size)
    ensures Contents(mem[..], u) == Contents(old(mem[..]), t) == Contents(mem[..], t)
    ensures OnlyInside(old(mem[..]), mem[..], u)
    ensures t.size == 0 ==> copies == 0
    ensures t.size > 0 ==> copies <= t.size / t.blockSize + t.size / blockSize + 1
  {
    u := HostTable(blocks, blockSize, t.metadata, t.size);
    var srcIndex, srcOffset, dstIndex, dstOffset, copied := 0, 0, 0, 0, 0;
    copies := 0;
    ghost var original := mem[..];
    ghost var bytes := Contents(original, t);
    while copied < t.size
      invariant 0 <= copied <= t.size
      invariant copied == srcIndex * t.blockSize + srcOffset == dstIndex * blockSize + dstOffset
      invariant 0 <= srcOffset && 0 <= dstOffset && (t.size > 0 ==> srcOffset < t.blockSize && dstOffset < blockSize)
      invariant copied < t.size ==> copies <= srcIndex + dstIndex
      invariant copies <= srcIndex + dstIndex + 1
      invariant t.size == 0 ==> copies == 0
      invariant Arrived(mem[..], u, bytes, copied)
      invariant OnlyInside(original, mem[..], u)
    {
      var remaining := t.size - copied;
      var srcAvail := t.blockSize - srcOffset;
      var dstAvail := blockSize - dstOffset;
      var bytesToCopy := Min(remaining, Min(srcAvail, dstAvail));
      MoveAligned(mem, t, u, srcIndex, srcOffset, dstIndex, dstOffset, copied, bytesToCopy, bytes, original);
      NextChunk(srcIndex, t.blockSize, srcOffset, bytesToCopy);
      NextChunk(dstIndex, blockSize, dstOffset, bytesToCopy);
      copied := copied + bytesToCopy;
      srcOffset := srcOffset + bytesToCopy;
      dstOffset := dstOffset + bytesToCopy;
      copies := copies + 1;
      if srcOffset == t.blockSize {
        srcIndex := srcIndex + 1;
        srcOffset := 0;
      }
      if dstOffset == blockSize {
        dstIndex := dstIndex + 1;
        dstOffset := 0;
      }
    }
    OthersKeepContents(original, mem[..], u, t);
    AllArrived(mem[..], u, bytes);
    if t.size > 0 {
      DivModUnique(t.size, t.blockSize, srcIndex, srcOffset);
      DivModUnique(t.size, blockSize, dstIndex, dstOffset);
    }
  }
}
