/** What every public operation of the device adaptor does for its caller, and how arenas, buffers
    and the recorded peak balance over a run. */
module GpuOutcomes {
  import opened Prelude
  import opened AtomicCounters
  import opened GpuLedger
  import opened GpuAccounting

  // ----- what every reachable state has -----

  ghost predicate Kept<A>(st: GpuState<A>) {
    && st.total >= 0 && st.peak >= 0
    && st.arenas.Keys <= st.issued
    && (forall a :: a in st.arenas ==> st.arenas[a].size >= 0)
    && StreamsOwnArenas(st)
  }

  /** The tries together: they succeed exactly if the charge fits under the capacity and the upstream
      resource would deliver to some try; the total moves only then; the peak sees the charge even
      if no try succeeds. */
  lemma {:induction false} TriesMean(cfg: Config, total: int, peak: int, charge: int, attempts: seq<bool>)
    requires charge >= 0
    ensures var (ok, total', peak') := TryAllocate(cfg, total, peak, charge, attempts);
            && (ok <==> total + charge <= cfg.capacity && true in attempts)
            && total' == (if ok then total + charge else total)
            && peak' == (if total + charge <= cfg.capacity then Max(peak, total + charge) else peak)
    decreases |attempts|
  {
    if !(total + charge <= cfg.capacity && attempts != [] && attempts[0]) && |attempts| > 1 {
      TriesMean(cfg, total, if total + charge <= cfg.capacity then Max(peak, total + charge) else peak, charge, attempts[1..]);
      assert attempts == [attempts[0]] + attempts[1..];
    }
  }

  lemma AllocateKept<A>(cfg: Config, st: GpuState<A>, bytes: nat, stream: Stream, attempts: seq<bool>, ptr: Ptr)
    requires Kept(st)
    ensures Kept(Allocate(cfg, st, bytes, stream, attempts, ptr).0)
  {
    var st' := Allocate(cfg, st, bytes, stream, attempts, ptr).0;
    if ptr !in st.buffers {
      if stream in st.streams {
        var a := st.arenas[st.streams[stream].arena];
        TriesMean(cfg, st.total, st.peak, OverflowCharge(Padded(bytes), a.size, a.used), attempts);
      } else {
        TriesMean(cfg, st.total, st.peak, Padded(bytes), attempts);
      }
    }
    assert st'.arenas.Keys == st.arenas.Keys;
  }

  lemma ReleasingKept<A>(st: GpuState<A>, op: Op<A>)
    requires Kept(st) && (op.OpAttach? || op.OpReset? || op.OpDestroy?)
    ensures forall cfg :: Kept(Next(cfg, st, op))
  {
  }

  lemma NextKept<A>(cfg: Config, st: GpuState<A>, op: Op<A>)
    requires Kept(st)
    ensures Kept(Next(cfg, st, op))
  {
    match op
    case OpAllocate(bytes, stream, attempts, ptr) => AllocateKept(cfg, st, bytes, stream, attempts, ptr);
    case OpAttach(_, _, _) => ReleasingKept(st, op);
    case OpReset(_) => ReleasingKept(st, op);
    case OpDestroy(_) => ReleasingKept(st, op);
    case _ =>
  }

  lemma {:induction false} KeptAlways<A>(cfg: Config, start: GpuState<A>, ops: seq<Op<A>>)
    requires start == InitialState()
    ensures Kept(Exec(cfg, start, ops))
  {
    if ops != [] {
      KeptAlways(cfg, start, ops[..|ops| - 1]);
      NextKept(cfg, Exec(cfg, start, ops[..|ops| - 1]), ops[|ops| - 1]);
    }
  }

  // ----- allocations -----

  /** What `more` bytes on a stream do to the larger of its arena's size and use; all of them count
      on a stream without one. */
  function FootprintStep<A(==)>(st: GpuState<A>, stream: Stream, more: nat): int {
    if stream in st.streams && st.streams[stream].arena in st.arenas then
      var a := st.arenas[st.streams[stream].arena];
      Max(a.size, a.used + more) - Max(a.size, a.used)
    else more
  }

  /** The reservation of the stream has room, or its policy does not mind. */
  predicate PolicyAllows<A(==)>(st: GpuState<A>, stream: Stream, more: nat) {
    stream in st.streams && st.streams[stream].arena in st.arenas ==>
      var a := st.arenas[st.streams[stream].arena];
      st.streams[stream].policy.Ignore? || a.used + more <= a.size
  }

  /** The stream counter with `more` bytes on it. */
  function Raised<A(==)>(st: GpuState<A>, stream: Stream, more: int): map<A, Arena> {
    if stream in st.streams && st.streams[stream].arena in st.arenas then
      var arena := st.streams[stream].arena;
      st.arenas[arena := Arena(st.arenas[arena].size, st.arenas[arena].used + more)]
    else st.arenas
  }

  lemma PaddedTo256(bytes: nat, n: nat)
    requires Rounded(n, bytes, 256)
    ensures Padded(bytes) == n
  {
    RoundedIsAlignUp(n, bytes, 256);
  }

  /** An allocation of `bytes`, padded to `n`, the least multiple of 256 that holds them: exactly if
      the policy allows, the part beyond the reservation fits under the capacity and some try is
      delivered, a buffer of `n` bytes, with `n` bytes on the counter of its stream and that part on
      the total. Otherwise only the peak may show that there was a try. */
  lemma AllocationMeans<A>(cfg: Config, st: GpuState<A>, bytes: nat, n: nat, stream: Stream, attempts: seq<bool>, ptr: Ptr)
    requires Kept(st) && ptr !in st.buffers && Rounded(n, bytes, 256)
    ensures var (st', ok) := Allocate(cfg, st, bytes, stream, attempts, ptr);
            var charge := FootprintStep(st, stream, n);
            var fits := PolicyAllows(st, stream, n) && st.total + charge <= cfg.capacity;
            && (ok <==> fits && true in attempts)
            && st' == st.(total := if ok then st.total + charge else st.total,
                          peak := if fits then Max(st.peak, st.total + charge) else st.peak,
                          arenas := if ok then Raised(st, stream, n) else st.arenas,
                          buffers := if ok then st.buffers[ptr := n] else st.buffers)
  {
    PaddedTo256(bytes, n);
    TriesMean(cfg, st.total, st.peak, FootprintStep(st, stream, n), attempts);
    if stream in st.streams {
      var a := st.arenas[st.streams[stream].arena];
      assert OverflowCharge(n, a.size, a.used) == FootprintStep(st, stream, n);
    }
  }

  // ----- frees -----

  /** What the free ought to give back: what the bytes did to the larger of size and use. */
  function Share<A(==)>(st: GpuState<A>, stream: Stream, bytes: nat): int {
    if stream in st.streams && st.streams[stream].arena in st.arenas then
      var a := st.arenas[st.streams[stream].arena];
      Max(a.size, a.used) - Max(a.size, a.used - bytes)
    else bytes
  }

  predicate AcrossBoundary<A(==)>(st: GpuState<A>, stream: Stream, bytes: nat) {
    && stream in st.streams && st.streams[stream].arena in st.arenas
    && var a := st.arenas[st.streams[stream].arena]; a.used - bytes < a.size < a.used
  }

  /** A free takes the buffer, padded as it was allocated, off the counter of the stream named, and
      off the total its share there; unless it lies across the boundary of the reservation, when it
      gives back the rest of its bytes instead. */
  lemma FreeMeans<A>(cfg: Config, st: GpuState<A>, ptr: Ptr, stream: Stream)
    requires Kept(st) && ptr in st.buffers
    ensures var n := st.buffers[ptr];
            var credit := if AcrossBoundary(st, stream, n) then n - Share(st, stream, n) else Share(st, stream, n);
            Free(st, ptr, stream)
            == st.(total := SubWord(st.total, credit), arenas := Raised(st, stream, 0 - n), buffers := st.buffers - {ptr})
  {
  }

  /** Freeing `n` bytes that have just been put on the stream, the total and the table of buffers. */
  lemma Untaken<A>(cfg: Config, st: GpuState<A>, st1: GpuState<A>, n: nat, stream: Stream, ptr: Ptr)
    requires Kept(st) && Kept(st1) && ptr !in st.buffers
    requires st1 == st.(total := st.total + FootprintStep(st, stream, n), peak := st1.peak,
                        arenas := Raised(st, stream, n), buffers := st.buffers[ptr := n])
    ensures var st2, beyond := Free(st1, ptr, stream), FootprintStep(st, stream, n);
            && st2 == st.(total := st2.total, peak := st1.peak)
            && (!AcrossBoundary(st1, stream, n) ==> st2.total == st.total)
            && (AcrossBoundary(st1, stream, n) ==> st2.total == SubWord(st.total + beyond, n - beyond))
  {
    FreeMeans(cfg, st1, ptr, stream);
    assert st1.buffers - {ptr} == st.buffers;
    assert Raised(st1, stream, 0 - n) == st.arenas;
    assert Share(st1, stream, n) == FootprintStep(st, stream, n);
  }

  /** A buffer allocated and freed on the same stream with nothing in between leaves everything as it
      was but the peak, unless it lay across the boundary of the reservation. Then the total is off by
      the difference of the parts beyond and within. */
  lemma AllocateAndFree<A>(cfg: Config, st: GpuState<A>, bytes: nat, n: nat, stream: Stream, attempts: seq<bool>, ptr: Ptr)
    requires Kept(st) && ptr !in st.buffers && Rounded(n, bytes, 256) && cfg.Valid()
    requires Allocate(cfg, st, bytes, stream, attempts, ptr).1
    ensures var st1 := Allocate(cfg, st, bytes, stream, attempts, ptr).0;
            var st2 := Free(st1, ptr, stream);
            && st2 == st.(total := st2.total, peak := st2.peak)
            && var beyond := FootprintStep(st, stream, n);
               && (!AcrossBoundary(st1, stream, n) ==> st2.total == st.total)
               && (AcrossBoundary(st1, stream, n) ==> st2.total == SubWord(st.total + beyond, n - beyond))
               && (n - beyond <= st.total + beyond && AcrossBoundary(st1, stream, n) ==>
                     st2.total == st.total + beyond - (n - beyond))
  {
    AllocationMeans(cfg, st, bytes, n, stream, attempts, ptr);
    AllocateKept(cfg, st, bytes, stream, attempts, ptr);
    Untaken(cfg, st, Allocate(cfg, st, bytes, stream, attempts, ptr).0, n, stream, ptr);
  }

  // ----- reservations -----

  /** `reserve` of `bytes`: exactly if they fit under the limit, a new arena of that size. */
  lemma ReserveMeans<A>(cfg: Config, st: GpuState<A>, bytes: nat, arena: A)
    requires arena !in st.issued
    ensures var st' := Reserve(cfg, st, bytes, arena);
            if st.total + bytes <= cfg.limit then
              && st'.arenas == st.arenas[arena := Arena(bytes, 0)] && st'.issued == st.issued + {arena}
              && st'.total - st.total == bytes == st'.reserved - st.reserved
              && st'.streams == st.streams && st'.buffers == st.buffers
            else st' == st
  {
  }

  /** `reserve_upto`: an arena of the request, or of what is left under the limit; among other threads
      of any part of that. */
  lemma ReserveUpToMeans<A>(cfg: Config, st: GpuState<A>, bytes: nat, asked: nat, arena: A)
    requires Kept(st) && arena !in st.issued
    ensures var st', g := ReserveUpTo(cfg, st, bytes, asked, arena), Min(asked, Min(bytes, Max(0, cfg.limit - st.total)));
            && st'.arenas == st.arenas[arena := Arena(g, 0)] && st'.issued == st.issued + {arena}
            && st'.total - st.total == g == st'.reserved - st.reserved
            && st'.streams == st.streams && st'.buffers == st.buffers
  {
  }

  /** A growth by `bytes`: exactly if they fit under the limit, the arena is that much larger. So a
      stream that must not exceed its reservation may allocate that much more. */
  lemma GrowMeans<A>(cfg: Config, st: GpuState<A>, arena: A, bytes: nat, stream: Stream, more: nat)
    requires Kept(st) && arena in st.arenas
    ensures var st' := Grow(cfg, st, arena, bytes);
            if st.total + bytes <= cfg.limit then
              && st'.arenas == st.arenas[arena := Arena(st.arenas[arena].size + bytes, st.arenas[arena].used)]
              && st'.total - st.total == bytes == st'.reserved - st.reserved
              && st'.streams == st.streams && st'.buffers == st.buffers && st'.issued == st.issued
              && (stream in st.streams && st.streams[stream] == Tracker(arena, Fail) ==>
                    (PolicyAllows(st', stream, more) <==> more <= st.arenas[arena].size - st.arenas[arena].used + bytes))
            else st' == st
  {
  }

  /** A shrink leaves the bytes in use reserved, no more, and gives the rest back. */
  lemma ShrinkMeans<A>(cfg: Config, st: GpuState<A>, arena: A)
    requires Kept(st) && arena in st.arenas
    ensures var a := st.arenas[arena];
            var size := Min(a.size, Max(0, a.used));
            Shrink(st, arena) == st.(total := SubWord(st.total, a.size - size), arenas := st.arenas[arena := Arena(size, a.used)])
  {
    assert st.arenas[arena := st.arenas[arena]] == st.arenas;
  }

  /** What destroying an arena comes to: it is gone, and the unused part of its size given back. */
  predicate Destroyed<A(==)>(st: GpuState<A>, st': GpuState<A>, arena: A)
    requires arena in st.arenas
  {
    var a := st.arenas[arena];
    && st'.arenas == st.arenas - {arena} && st'.issued == st.issued
    && st'.total == SubWord(st.total, Max(0, a.size - Max(0, a.used)))
    && st'.reserved == SubWord(st.reserved, a.size)
    && st'.peak == st.peak && st'.buffers == st.buffers
  }

  /** Attaching an arena of its own to a stream without tracker puts the stream under the policy
      handed in; with a tracker the stream keeps what it has and the arena is destroyed. */
  lemma AttachMeans<A>(cfg: Config, st: GpuState<A>, stream: Stream, arena: A, policy: Policy, more: nat)
    requires Kept(st) && arena in st.arenas && !Attached(st, arena)
    ensures var st' := Attach(st, stream, arena, policy);
            if stream in st.streams then
              Destroyed(st, st', arena) && st'.streams == st.streams
            else
              && st' == st.(streams := st.streams[stream := Tracker(arena, policy)])
              && (PolicyAllows(st', stream, more) <==> policy.Ignore? || st.arenas[arena].used + more <= st.arenas[arena].size)
  {
  }

  /** Resetting a tracked stream destroys its arena, and what it allocates next is not tracked. */
  lemma ResetMeans<A>(cfg: Config, st: GpuState<A>, stream: Stream)
    requires Kept(st)
    ensures var st' := Reset(st, stream);
            if stream in st.streams then
              && Destroyed(st, st', st.streams[stream].arena) && st'.streams == st.streams - {stream}
              && (forall more: nat :: PolicyAllows(st', stream, more) && FootprintStep(st', stream, more) == more)
            else st' == st
  {
  }

  lemma DestroyMeans<A>(cfg: Config, st: GpuState<A>, arena: A)
    requires Kept(st) && arena in st.arenas && !Attached(st, arena)
    ensures Destroyed(st, Destroy(st, arena), arena) && Destroy(st, arena).streams == st.streams
  {
  }

  // ----- the peak -----

  /** The total right after what an operation charges, and zero if it charges nothing. A charge shows
      even if it is taken back because the upstream resource does not deliver. */
  function Height<A(==)>(cfg: Config, st: GpuState<A>, op: Op<A>): int {
    match op
    case OpReserve(bytes, arena) => if arena !in st.issued && st.total + bytes <= cfg.limit then st.total + bytes else 0
    case OpReserveUpTo(bytes, asked, arena) =>
      if arena !in st.issued then st.total + Min(asked, Min(bytes, Max(0, cfg.limit - st.total))) else 0
    case OpGrow(arena, bytes) => if arena in st.arenas && st.total + bytes <= cfg.limit then st.total + bytes else 0
    case OpAllocate(bytes, stream, attempts, ptr) =>
      var charge := FootprintStep(st, stream, Padded(bytes));
      if ptr !in st.buffers && PolicyAllows(st, stream, Padded(bytes)) && st.total + charge <= cfg.capacity
      then st.total + charge else 0
    case _ => 0
  }

  function HighWater<A(==)>(cfg: Config, st: GpuState<A>, ops: seq<Op<A>>): int {
    if ops == [] then 0
    else Max(HighWater(cfg, st, ops[..|ops| - 1]), Height(cfg, Exec(cfg, st, ops[..|ops| - 1]), ops[|ops| - 1]))
  }

  lemma AllocatePeak<A>(cfg: Config, st: GpuState<A>, bytes: nat, stream: Stream, attempts: seq<bool>, ptr: Ptr)
    requires Kept(st)
    ensures Allocate(cfg, st, bytes, stream, attempts, ptr).0.peak
            == Max(st.peak, Height(cfg, st, OpAllocate(bytes, stream, attempts, ptr)))
  {
    AlignUpIsRounded(bytes, 256);
    if ptr !in st.buffers {
      AllocationMeans(cfg, st, bytes, AlignUp(bytes, 256), stream, attempts, ptr);
    }
  }

  lemma PeakStep<A>(cfg: Config, st: GpuState<A>, op: Op<A>)
    requires Kept(st)
    ensures Next(cfg, st, op).peak == Max(st.peak, Height(cfg, st, op))
  {
    match op
    case OpAllocate(bytes, stream, attempts, ptr) => AllocatePeak(cfg, st, bytes, stream, attempts, ptr);
    case _ =>
  }

  /** The recorded peak is the largest value any charge of the run has taken the total to. */
  lemma {:induction false} PeakIsHighWater<A>(cfg: Config, start: GpuState<A>, ops: seq<Op<A>>)
    requires start == InitialState()
    ensures Exec(cfg, start, ops).peak == HighWater(cfg, start, ops)
  {
    if ops != [] {
      PeakIsHighWater(cfg, start, ops[..|ops| - 1]);
      KeptAlways(cfg, start, ops[..|ops| - 1]);
      PeakStep(cfg, Exec(cfg, start, ops[..|ops| - 1]), ops[|ops| - 1]);
    }
  }

  // ----- comings and goings over a run -----

  datatype Event = Opens | Closes | Delivers | Frees

  /** An arena is made or destroyed, a buffer handed out or freed. */
  predicate Happens<A(==)>(cfg: Config, st: GpuState<A>, op: Op<A>, e: Event) {
    match e
    case Opens =>
      (op.OpReserve? && op.arena !in st.issued && st.total + op.bytes <= cfg.limit) || (op.OpReserveUpTo? && op.arena !in st.issued)
    case Closes =>
      (op.OpReset? && op.stream in st.streams)
      || (op.OpDestroy? && op.arena in st.arenas && !Attached(st, op.arena))
      || (op.OpAttach? && op.arena in st.arenas && !Attached(st, op.arena) && op.stream in st.streams)
    case Delivers =>
      && op.OpAllocate? && op.ptr !in st.buffers && true in op.attempts && PolicyAllows(st, op.stream, Padded(op.bytes))
      && st.total + FootprintStep(st, op.stream, Padded(op.bytes)) <= cfg.capacity
    case Frees => op.OpFree? && op.ptr in st.buffers
  }

  function Once<A(==)>(cfg: Config, st: GpuState<A>, op: Op<A>, e: Event): nat {
    if Happens(cfg, st, op, e) then 1 else 0
  }

  function Count<A(==)>(cfg: Config, st: GpuState<A>, ops: seq<Op<A>>, e: Event): nat {
    if ops == [] then 0
    else Count(cfg, st, ops[..|ops| - 1], e) + Once(cfg, Exec(cfg, st, ops[..|ops| - 1]), ops[|ops| - 1], e)
  }

  lemma ReleasedKeys<A>(st: GpuState<A>, arena: A)
    ensures Release(st, arena).arenas.Keys == st.arenas.Keys - {arena}
  {
    assert arena in st.arenas ==> (st.arenas - {arena}).Keys == st.arenas.Keys - {arena};
  }

  lemma ResetCloses<A>(cfg: Config, st: GpuState<A>, stream: Stream)
    requires Kept(st)
    ensures |Reset(st, stream).arenas.Keys| == |st.arenas.Keys| - Once(cfg, st, OpReset(stream), Closes)
  {
    if stream in st.streams { ReleasedKeys(st, st.streams[stream].arena); }
  }

  lemma DestroyCloses<A>(cfg: Config, st: GpuState<A>, arena: A)
    ensures |Destroy(st, arena).arenas.Keys| == |st.arenas.Keys| - Once(cfg, st, OpDestroy(arena), Closes)
  {
    ReleasedKeys(st, arena);
  }

  lemma AttachCloses<A>(cfg: Config, st: GpuState<A>, stream: Stream, arena: A, policy: Policy)
    ensures |Attach(st, stream, arena, policy).arenas.Keys|
            == |st.arenas.Keys| - Once(cfg, st, OpAttach(stream, arena, policy), Closes)
  {
    ReleasedKeys(st, arena);
  }

  lemma ClosingMoves<A>(cfg: Config, st: GpuState<A>, op: Op<A>)
    requires Kept(st) && (op.OpAttach? || op.OpReset? || op.OpDestroy?)
    ensures |Next(cfg, st, op).arenas.Keys| == |st.arenas.Keys| - Once(cfg, st, op, Closes)
  {
    match op
    case OpReset(stream) => ResetCloses(cfg, st, stream);
    case OpDestroy(arena) => DestroyCloses(cfg, st, arena);
    case OpAttach(stream, arena, policy) => AttachCloses(cfg, st, stream, arena, policy);
  }

  lemma AllocateMoves<A>(cfg: Config, st: GpuState<A>, bytes: nat, stream: Stream, attempts: seq<bool>, ptr: Ptr)
    requires Kept(st)
    ensures var st', op: Op<A> := Allocate(cfg, st, bytes, stream, attempts, ptr).0, OpAllocate(bytes, stream, attempts, ptr);
            && st'.arenas.Keys == st.arenas.Keys
            && |st'.buffers.Keys| == |st.buffers.Keys| + Once(cfg, st, op, Delivers)
  {
    AlignUpIsRounded(bytes, 256);
    if ptr !in st.buffers {
      AllocationMeans(cfg, st, bytes, AlignUp(bytes, 256), stream, attempts, ptr);
    }
  }

  lemma ReserveOpens<A>(cfg: Config, st: GpuState<A>, bytes: nat, arena: A)
    requires Kept(st)
    ensures |Reserve(cfg, st, bytes, arena).arenas.Keys| == |st.arenas.Keys| + Once(cfg, st, OpReserve(bytes, arena), Opens)
  {
    if arena !in st.issued && st.total + bytes <= cfg.limit {
      assert Reserve(cfg, st, bytes, arena).arenas.Keys == st.arenas.Keys + {arena};
    }
  }

  lemma ReserveUpToOpens<A>(cfg: Config, st: GpuState<A>, bytes: nat, asked: nat, arena: A)
    requires Kept(st)
    ensures |ReserveUpTo(cfg, st, bytes, asked, arena).arenas.Keys|
            == |st.arenas.Keys| + Once(cfg, st, OpReserveUpTo(bytes, asked, arena), Opens)
  {
    if arena !in st.issued {
      assert ReserveUpTo(cfg, st, bytes, asked, arena).arenas.Keys == st.arenas.Keys + {arena};
    }
  }

  lemma OpeningMoves<A>(cfg: Config, st: GpuState<A>, op: Op<A>)
    requires Kept(st) && (op.OpReserve? || op.OpReserveUpTo?)
    ensures |Next(cfg, st, op).arenas.Keys| == |st.arenas.Keys| + Once(cfg, st, op, Opens)
  {
    match op
    case OpReserve(bytes, arena) => ReserveOpens(cfg, st, bytes, arena);
    case OpReserveUpTo(bytes, asked, arena) => ReserveUpToOpens(cfg, st, bytes, asked, arena);
  }

  lemma ResizingStays<A>(cfg: Config, st: GpuState<A>, op: Op<A>)
    requires op.OpGrow? || op.OpShrink? || op.OpFree?
    ensures Next(cfg, st, op).arenas.Keys == st.arenas.Keys
  {
  }

  lemma ArenasMove<A>(cfg: Config, st: GpuState<A>, op: Op<A>)
    requires Kept(st)
    ensures |Next(cfg, st, op).arenas.Keys| == |st.arenas.Keys| + Once(cfg, st, op, Opens) - Once(cfg, st, op, Closes)
  {
    if op.OpReserve? || op.OpReserveUpTo? {
      OpeningMoves(cfg, st, op);
    } else if op.OpAttach? || op.OpReset? || op.OpDestroy? {
      ClosingMoves(cfg, st, op);
    } else if op.OpAllocate? {
      AllocateMoves(cfg, st, op.bytes, op.stream, op.attempts, op.ptr);
    } else {
      ResizingStays(cfg, st, op);
    }
  }

  lemma FreedKeys<A>(st: GpuState<A>, ptr: Ptr, stream: Stream)
    ensures Free(st, ptr, stream).buffers.Keys == st.buffers.Keys - {ptr}
  {
    assert (st.buffers - {ptr}).Keys == st.buffers.Keys - {ptr};
  }

  lemma BuffersStay<A>(cfg: Config, st: GpuState<A>, op: Op<A>)
    requires !op.OpAllocate? && !op.OpFree?
    ensures Next(cfg, st, op).buffers == st.buffers
  {
  }

  lemma BuffersMove<A>(cfg: Config, st: GpuState<A>, op: Op<A>)
    requires Kept(st)
    ensures |Next(cfg, st, op).buffers.Keys| == |st.buffers.Keys| + Once(cfg, st, op, Delivers) - Once(cfg, st, op, Frees)
  {
    if op.OpAllocate? {
      AllocateMoves(cfg, st, op.bytes, op.stream, op.attempts, op.ptr);
    } else if op.OpFree? {
      FreedKeys(st, op.ptr, op.stream);
    } else {
      BuffersStay(cfg, st, op);
    }
  }

  /** After any run the arenas are those made and not destroyed, the buffers those handed out and not
      freed. */
  lemma {:induction false} RunBalances<A>(cfg: Config, start: GpuState<A>, ops: seq<Op<A>>)
    requires start == InitialState()
    ensures var st := Exec(cfg, start, ops);
            && |st.arenas.Keys| == Count(cfg, start, ops, Opens) - Count(cfg, start, ops, Closes)
            && |st.buffers.Keys| == Count(cfg, start, ops, Delivers) - Count(cfg, start, ops, Frees)
  {
    if ops != [] {
      var before, op := ops[..|ops| - 1], ops[|ops| - 1];
      RunBalances(cfg, start, before);
      KeptAlways(cfg, start, before);
      ArenasMove(cfg, Exec(cfg, start, before), op);
      BuffersMove(cfg, Exec(cfg, start, before), op);
    }
  }

  lemma {:induction false} NothingLeft<A>(cfg: Config, start: GpuState<A>, ops: seq<Op<A>>)
    requires start == InitialState()
    requires Count(cfg, start, ops, Opens) == Count(cfg, start, ops, Closes)
    requires Count(cfg, start, ops, Delivers) == Count(cfg, start, ops, Frees)
    ensures Exec(cfg, start, ops).arenas == map[] && Exec(cfg, start, ops).buffers == map[]
  {
    RunBalances(cfg, start, ops);
    var st := Exec(cfg, start, ops);
    assert st.arenas.Keys == {} && st.buffers.Keys == {};
  }

  lemma {:induction false} BooksFromStart<A>(cfg: Config, start: GpuState<A>, ops: seq<Op<A>>)
    requires cfg.Valid() && start == InitialState() && NeverWraps(cfg, start, ops)
    ensures Books(cfg, Exec(cfg, start, ops), TotalDrift(cfg, start, ops))
  {
    InitialBooks(cfg, start);
    RunBooks(cfg, start, ops);
  }

  lemma NothingOwed<A>(cfg: Config, st: GpuState<A>, drift: int)
    requires Books(cfg, st, drift) && st.arenas == map[] && st.buffers == map[]
    ensures st.total == drift
  {
  }

  /** Once every arena made has been destroyed and every buffer freed, in any order and on any streams,
      the total is exactly the accumulated drift, as long as no subtraction wrapped. */
  lemma {:induction false} GivenBack<A>(cfg: Config, start: GpuState<A>, ops: seq<Op<A>>)
    requires cfg.Valid() && start == InitialState() && NeverWraps(cfg, start, ops)
    requires Count(cfg, start, ops, Opens) == Count(cfg, start, ops, Closes)
    requires Count(cfg, start, ops, Delivers) == Count(cfg, start, ops, Frees)
    ensures var st := Exec(cfg, start, ops);
            st.arenas == map[] && st.buffers == map[] && st.total == TotalDrift(cfg, start, ops)
  {
    NothingLeft(cfg, start, ops);
    BooksFromStart(cfg, start, ops);
    NothingOwed(cfg, Exec(cfg, start, ops), TotalDrift(cfg, start, ops));
  }
}
