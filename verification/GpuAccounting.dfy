/** How far `_total_allocated_bytes` of the device adaptor is from what it stands for, exactly,
    over every run; and when it is safe. */
module GpuAccounting {
  import opened Prelude
  import opened AtomicCounters
  import opened GpuLedger
  import I = GpuInterleaving
  import S = GpuSteps
  import U = GpuAlone

  /** Bytes of device memory in the hands of callers. */
  ghost function Outstanding<A>(st: GpuState<A>): int {
    MapSum(st.buffers, Amount())
  }

  /** What the total should be: every arena at its size or its use, whichever is larger, plus the
      bytes no arena's counter accounts for. Streams that freed what others allocated have
      negative use, and the remainder makes up for it. */
  ghost function Owed<A>(st: GpuState<A>): int {
    MapSum(st.arenas, Footprint()) + (Outstanding(st) - MapSum(st.arenas, Used()))
  }

  /** Every tracked stream has its own arena, and it is alive. */
  ghost predicate StreamsOwnArenas<A>(st: GpuState<A>) {
    && (forall s :: s in st.streams ==> st.streams[s].arena in st.arenas)
    && (forall s, t :: s in st.streams && t in st.streams && st.streams[s].arena == st.streams[t].arena ==> s == t)
  }

  ghost predicate Wellformed<A>(cfg: Config, st: GpuState<A>) {
    && cfg.Valid()
    && (forall a :: a in st.arenas ==> st.arenas[a].size >= 0)
    && st.arenas.Keys <= st.issued
    && StreamsOwnArenas(st)
    && 0 <= st.total <= Max(cfg.limit, cfg.capacity)
  }

  /** The total is what it should be, plus `drift`. */
  ghost predicate Books<A>(cfg: Config, st: GpuState<A>, drift: int) {
    Wellformed(cfg, st) && st.total == Owed(st) + drift
  }

  // ----- the drift of each operation -----

  /** A stream that has freed `-used` bytes of others leaves them charged when its arena goes. */
  function ReleaseDrift<A(==)>(st: GpuState<A>, arena: A): int {
    if arena in st.arenas then Max(0, -st.arenas[arena].used) else 0
  }

  /** Freeing across the reservation boundary gives back the part inside instead of the part
      beyond it. */
  function FreeDrift<A(==)>(st: GpuState<A>, ptr: Ptr, stream: Stream): int {
    if ptr in st.buffers && stream in st.streams && st.streams[stream].arena in st.arenas then
      var a := st.arenas[st.streams[stream].arena];
      if Straddles(st.buffers[ptr], a.size, a.used) then 2 * a.used - st.buffers[ptr] - 2 * a.size else 0
    else 0
  }

  function Drift<A(==)>(cfg: Config, st: GpuState<A>, op: Op<A>): int {
    match op
    case OpGrow(arena, bytes) =>
      if arena in st.arenas && Fits(st.total, bytes, cfg.limit)
      then Min(bytes, Max(0, st.arenas[arena].used - st.arenas[arena].size)) else 0
    case OpFree(ptr, stream) => FreeDrift(st, ptr, stream)
    case OpReset(stream) => if stream in st.streams then ReleaseDrift(st, st.streams[stream].arena) else 0
    case OpDestroy(arena) => if Attached(st, arena) then 0 else ReleaseDrift(st, arena)
    case OpAttach(stream, arena, policy) =>
      if stream in st.streams && !Attached(st, arena) then ReleaseDrift(st, arena) else 0
    case _ => 0
  }

  function ReleaseCredit<A(==)>(st: GpuState<A>, arena: A): int {
    if arena in st.arenas && st.arenas[arena].size > st.arenas[arena].used
    then st.arenas[arena].size - Max(0, st.arenas[arena].used) else 0
  }

  /** What each operation subtracts from the total. */
  function Credit<A(==)>(st: GpuState<A>, op: Op<A>): int {
    match op
    case OpShrink(arena) =>
      if arena in st.arenas then Max(0, st.arenas[arena].size - Max(0, st.arenas[arena].used)) else 0
    case OpReset(stream) => if stream in st.streams then ReleaseCredit(st, st.streams[stream].arena) else 0
    case OpDestroy(arena) => if Attached(st, arena) then 0 else ReleaseCredit(st, arena)
    case OpAttach(stream, arena, policy) =>
      if stream in st.streams && !Attached(st, arena) then ReleaseCredit(st, arena) else 0
    case OpFree(ptr, stream) =>
      if ptr !in st.buffers then 0
      else if stream in st.streams && st.streams[stream].arena in st.arenas then
        var a := st.arenas[st.streams[stream].arena];
        FreeCredit(st.buffers[ptr], a.size, a.used)
      else st.buffers[ptr]
    case _ => 0
  }

  /** The unsigned total would go below zero. */
  predicate Wraps<A(==)>(st: GpuState<A>, op: Op<A>) {
    Credit(st, op) > st.total
  }

  // ----- bounds that keep subtractions from wrapping -----

  lemma OutstandingNonNegative<A>(st: GpuState<A>)
    ensures Outstanding(st) >= 0
    ensures forall p :: p in st.buffers ==> st.buffers[p] <= Outstanding(st)
  {
    MapSumNonNegative(st.buffers, Amount());
  }

  lemma {:induction false} UnusedCovered<A>(m: map<A, Arena>, arena: A)
    requires arena in m
    ensures MapSum(m, Footprint()) - MapSum(m, Used()) >= Max(0, m[arena].size - m[arena].used)
  {
    MapSumRemove(m, arena, Footprint());
    MapSumRemove(m, arena, Used());
    MapSumLeq(m - {arena}, Used(), Footprint());
  }

  /** Callers hold no more than is owed, and what an arena has left is owed on top. */
  lemma OwedCovers<A>(st: GpuState<A>)
    ensures 0 <= Outstanding(st) <= Owed(st)
    ensures forall a :: a in st.arenas ==> Outstanding(st) + Max(0, st.arenas[a].size - st.arenas[a].used) <= Owed(st)
  {
    OutstandingNonNegative(st);
    MapSumLeq(st.arenas, Used(), Footprint());
    forall a | a in st.arenas
      ensures Outstanding(st) + Max(0, st.arenas[a].size - st.arenas[a].used) <= Owed(st)
    {
      UnusedCovered(st.arenas, a);
    }
  }

  /** No operation takes back more than is owed, so only a total that has fallen below it can wrap. */
  lemma CreditOwed<A>(cfg: Config, st: GpuState<A>, op: Op<A>)
    requires Wellformed(cfg, st)
    ensures 0 <= Credit(st, op) <= Owed(st)
  {
    OwedCovers(st);
    OutstandingNonNegative(st);
  }

  // ----- the books of an operation are the books of its steps -----

  lemma LiftedBooks<A>(cfg: Config, st: GpuState<A>, drift: int)
    ensures I.Books(cfg, U.Lift(st), drift) <==> Books(cfg, st, drift)
  {
    assert I.Owed(U.Lift(st)) == Owed(st);
  }

  lemma ReserveBooks<A>(cfg: Config, st: GpuState<A>, drift: int, bytes: nat, asked: nat, arena: A)
    requires I.Books(cfg, U.Lift(st), drift)
    ensures I.Books(cfg, U.Alone(cfg, U.Lift(st), 0, OpReserve(bytes, arena)), drift)
    ensures I.Books(cfg, U.Alone(cfg, U.Lift(st), 0, OpReserveUpTo(bytes, asked, arena)), drift)
  {
    var s := U.Lift(st);
    I.ReserveBooks(cfg, s, drift, 0, bytes);
    I.OpenBooks(cfg, S.ChargeReserve(cfg, s, 0, bytes), drift, 0, arena);
    I.ReserveUpToBooks(cfg, s, drift, 0, bytes, asked);
    I.OpenBooks(cfg, S.ChargeReserveUpTo(cfg, s, 0, bytes, asked), drift, 0, arena);
  }

  lemma GrowDrift<A>(cfg: Config, st: GpuState<A>, arena: A, bytes: nat)
    ensures I.Drift(S.ChargeGrow(cfg, U.Lift(st), 0, arena, bytes), S.DoApplyGrow(0)) == Drift(cfg, st, OpGrow(arena, bytes))
  {
  }

  lemma GrowBooks<A>(cfg: Config, st: GpuState<A>, drift: int, arena: A, bytes: nat)
    requires I.Books(cfg, U.Lift(st), drift)
    ensures I.Books(cfg, U.Alone(cfg, U.Lift(st), 0, OpGrow(arena, bytes)), drift + Drift(cfg, st, OpGrow(arena, bytes)))
  {
    I.ChargeGrowBooks(cfg, U.Lift(st), drift, 0, arena, bytes);
    I.ApplyGrowBooks(cfg, S.ChargeGrow(cfg, U.Lift(st), 0, arena, bytes), drift, 0);
    GrowDrift(cfg, st, arena, bytes);
  }

  lemma ShrinkBooks<A>(cfg: Config, st: GpuState<A>, drift: int, arena: A)
    requires I.Books(cfg, U.Lift(st), drift) && !Wraps(st, OpShrink(arena))
    ensures I.Books(cfg, U.Alone(cfg, U.Lift(st), 0, OpShrink(arena)), drift)
  {
    I.ShrinkBooks(cfg, U.Lift(st), drift, 0, arena);
    I.ReturnBooks(cfg, S.Shrink(U.Lift(st), 0, arena), drift, 0);
  }

  lemma DestroyBooks<A>(cfg: Config, st: GpuState<A>, drift: int, arena: A)
    requires I.Books(cfg, U.Lift(st), drift) && !Wraps(st, OpDestroy(arena))
    ensures I.Books(cfg, S.Return(S.Destroy(U.Lift(st), 0, arena), 0), drift + Drift(cfg, st, OpDestroy(arena)))
  {
    assert S.Attached(U.Lift(st), arena) <==> Attached(st, arena);
    I.DestroyBooks(cfg, U.Lift(st), drift, 0, arena);
    I.ReturnBooks(cfg, S.Destroy(U.Lift(st), 0, arena), drift + Drift(cfg, st, OpDestroy(arena)), 0);
  }

  lemma AttachBooks<A>(cfg: Config, st: GpuState<A>, drift: int, stream: Stream, arena: A, policy: Policy)
    requires I.Books(cfg, U.Lift(st), drift) && !Wraps(st, OpAttach(stream, arena, policy))
    ensures I.Books(cfg, U.Alone(cfg, U.Lift(st), 0, OpAttach(stream, arena, policy)),
                    drift + Drift(cfg, st, OpAttach(stream, arena, policy)))
  {
    if stream in st.streams {
      DestroyBooks(cfg, st, drift, arena);
    } else {
      I.AttachBooks(cfg, U.Lift(st), drift, stream, arena, policy);
    }
  }

  lemma ResetBooks<A>(cfg: Config, st: GpuState<A>, drift: int, stream: Stream)
    requires I.Books(cfg, U.Lift(st), drift) && !Wraps(st, OpReset(stream))
    ensures I.Books(cfg, U.Alone(cfg, U.Lift(st), 0, OpReset(stream)), drift + Drift(cfg, st, OpReset(stream)))
  {
    I.ResetBooks(cfg, U.Lift(st), drift, 0, stream);
    I.ReturnBooks(cfg, S.Reset(U.Lift(st), 0, stream), drift + Drift(cfg, st, OpReset(stream)), 0);
  }

  lemma TriesBooks<A>(cfg: Config, tracked: S.Shared<A>, drift: int, attempts: seq<bool>, ptr: Ptr)
    requires I.Books(cfg, tracked, drift) && 0 in tracked.flights && tracked.flights[0].Tracked? && ptr !in tracked.buffers
    requires TryAllocate(cfg, tracked.total, 0, tracked.flights[0].tracking, attempts).0
    ensures I.Books(cfg, U.Tries(cfg, tracked, 0, attempts, ptr), drift)
  {
    assert I.FlightOk(tracked, tracked.flights[0]);
    U.TriesWork(cfg, tracked, 0, attempts, ptr);
    I.DeliveredBooks(cfg, tracked, drift, 0, ptr);
  }

  lemma AttemptBooks<A>(cfg: Config, s: S.Shared<A>, tracked: S.Shared<A>, drift: int,
                        bytes: nat, stream: Stream, attempts: seq<bool>, ptr: Ptr)
    requires I.Books(cfg, s, drift) && I.Books(cfg, tracked, drift) && tracked == S.Track(s, 0, bytes, stream)
    requires s.flights == map[] && ptr !in s.buffers && 0 in tracked.flights
    ensures I.Books(cfg, U.Tries(cfg, tracked, 0, attempts, ptr), drift)
  {
    if TryAllocate(cfg, tracked.total, 0, tracked.flights[0].tracking, attempts).0 {
      TriesBooks(cfg, tracked, drift, attempts, ptr);
    } else {
      U.TrackedTries(cfg, s, 0, bytes, stream, attempts, ptr, 0);
    }
  }

  lemma AllocateBooks<A>(cfg: Config, st: GpuState<A>, drift: int, bytes: nat, stream: Stream, attempts: seq<bool>, ptr: Ptr)
    requires I.Books(cfg, U.Lift(st), drift)
    ensures I.Books(cfg, U.Alone(cfg, U.Lift(st), 0, OpAllocate(bytes, stream, attempts, ptr)), drift)
  {
    var s := U.Lift(st);
    var tracked := S.Track(s, 0, bytes, stream);
    if ptr !in s.buffers && 0 in tracked.flights {
      I.TrackBooks(cfg, s, drift, 0, bytes, stream);
      AttemptBooks(cfg, s, tracked, drift, bytes, stream, attempts, ptr);
    }
  }

  lemma FreeMeans<A>(st: GpuState<A>, ptr: Ptr, stream: Stream)
    requires forall s :: s in st.streams ==> st.streams[s].arena in st.arenas
    ensures I.Drift(U.Lift(st), S.DoFree(0, ptr, stream)) == FreeDrift(st, ptr, stream)
    ensures var s := S.Free(U.Lift(st), 0, ptr, stream);
            && s.total == st.total
            && (0 in s.flights ==> s.flights[0].Freeing? && s.flights[0].credit == Credit(st, OpFree(ptr, stream)))
  {
  }

  lemma FreeBooks<A>(cfg: Config, st: GpuState<A>, drift: int, ptr: Ptr, stream: Stream)
    requires I.Books(cfg, U.Lift(st), drift) && !Wraps(st, OpFree(ptr, stream))
    ensures I.Books(cfg, U.Alone(cfg, U.Lift(st), 0, OpFree(ptr, stream)), drift + FreeDrift(st, ptr, stream))
  {
    var s, d := S.Free(U.Lift(st), 0, ptr, stream), drift + FreeDrift(st, ptr, stream);
    FreeMeans(st, ptr, stream);
    I.FreeBooks(cfg, U.Lift(st), drift, 0, ptr, stream);
    I.FreedBooks(cfg, s, d, 0);
  }

  /** The drift of an operation is the sum of the drifts of its steps: left alone with it, a thread
      moves the books of the step machine by exactly that much. */
  lemma AloneBooks<A>(cfg: Config, st: GpuState<A>, drift: int, op: Op<A>)
    requires I.Books(cfg, U.Lift(st), drift) && !Wraps(st, op)
    ensures I.Books(cfg, U.Alone(cfg, U.Lift(st), 0, op), drift + Drift(cfg, st, op))
  {
    match op
    case OpReserve(bytes, arena) => ReserveBooks(cfg, st, drift, bytes, bytes, arena);
    case OpReserveUpTo(bytes, asked, arena) => ReserveBooks(cfg, st, drift, bytes, asked, arena);
    case OpGrow(arena, bytes) => GrowBooks(cfg, st, drift, arena, bytes);
    case OpShrink(arena) => ShrinkBooks(cfg, st, drift, arena);
    case OpAttach(stream, arena, policy) => AttachBooks(cfg, st, drift, stream, arena, policy);
    case OpReset(stream) => ResetBooks(cfg, st, drift, stream);
    case OpDestroy(arena) => DestroyBooks(cfg, st, drift, arena);
    case OpAllocate(bytes, stream, attempts, ptr) => AllocateBooks(cfg, st, drift, bytes, stream, attempts, ptr);
    case OpFree(ptr, stream) => FreeBooks(cfg, st, drift, ptr, stream);
  }

  /** As long as a step does not wrap, it moves the books by exactly its drift, whatever the drift
      so far, negative or not. */
  lemma NextBooks<A>(cfg: Config, st: GpuState<A>, drift: int, op: Op<A>)
    requires Books(cfg, st, drift) && !Wraps(st, op)
    ensures Books(cfg, Next(cfg, st, op), drift + Drift(cfg, st, op))
  {
    LiftedBooks(cfg, st, drift);
    AloneBooks(cfg, st, drift, op);
    U.AloneIsLedger(cfg, st, 0, op);
    LiftedBooks(cfg, Next(cfg, st, op), drift + Drift(cfg, st, op));
  }

  /** And the unsigned total wraps in a step exactly when the step takes back more than what is
      owed plus the drift, which a non-negative drift rules out. */
  lemma StepWrapsIff<A>(cfg: Config, st: GpuState<A>, drift: int, op: Op<A>)
    requires Books(cfg, st, drift)
    ensures Wraps(st, op) <==> Credit(st, op) > Owed(st) + drift
    ensures Wraps(st, op) ==> drift < 0 && Next(cfg, st, op).total == (st.total - Credit(st, op)) % WORD
    ensures !Wraps(st, op) ==> 0 <= Next(cfg, st, op).total
  {
    CreditOwed(cfg, st, op);
    if !Wraps(st, op) {
      NextBooks(cfg, st, drift, op);
    }
  }

  // ----- runs -----

  function TotalDrift<A(==)>(cfg: Config, st: GpuState<A>, ops: seq<Op<A>>): int {
    if ops == [] then 0
    else
      var before := ops[..|ops| - 1];
      TotalDrift(cfg, st, before) + Drift(cfg, Exec(cfg, st, before), ops[|ops| - 1])
  }

  /** The accumulated drift is non-negative after every operation. */
  ghost predicate DriftNeverNegative<A>(cfg: Config, st: GpuState<A>, ops: seq<Op<A>>) {
    TotalDrift(cfg, st, ops) >= 0 && (ops == [] || DriftNeverNegative(cfg, st, ops[..|ops| - 1]))
  }

  /** The total covers what is owed after every operation. */
  ghost predicate AlwaysCovered<A>(cfg: Config, st: GpuState<A>, ops: seq<Op<A>>) {
    Exec(cfg, st, ops).total >= Owed(Exec(cfg, st, ops)) && (ops == [] || AlwaysCovered(cfg, st, ops[..|ops| - 1]))
  }

  ghost predicate NeverWraps<A>(cfg: Config, st: GpuState<A>, ops: seq<Op<A>>) {
    ops == [] ||
    (NeverWraps(cfg, st, ops[..|ops| - 1]) && !Wraps(Exec(cfg, st, ops[..|ops| - 1]), ops[|ops| - 1]))
  }

  /** The books after a run without wrap. */
  lemma {:induction false} RunBooks<A>(cfg: Config, st: GpuState<A>, ops: seq<Op<A>>)
    requires Books(cfg, st, 0) && NeverWraps(cfg, st, ops)
    ensures Books(cfg, Exec(cfg, st, ops), TotalDrift(cfg, st, ops))
  {
    if ops != [] {
      var before := ops[..|ops| - 1];
      RunBooks(cfg, st, before);
      NextBooks(cfg, Exec(cfg, st, before), TotalDrift(cfg, st, before), ops[|ops| - 1]);
    }
  }

  /** Every step of the run takes back at most what is owed plus the drift so far. */
  ghost predicate CreditsCovered<A>(cfg: Config, st: GpuState<A>, ops: seq<Op<A>>) {
    ops == [] ||
    var before := ops[..|ops| - 1];
    && CreditsCovered(cfg, st, before)
    && Credit(Exec(cfg, st, before), ops[|ops| - 1]) <= Owed(Exec(cfg, st, before)) + TotalDrift(cfg, st, before)
  }

  /** No subtraction of a run wraps exactly when every one of them is covered. */
  lemma {:induction false} NeverWrapsIff<A>(cfg: Config, st: GpuState<A>, ops: seq<Op<A>>)
    requires Books(cfg, st, 0)
    ensures NeverWraps(cfg, st, ops) <==> CreditsCovered(cfg, st, ops)
  {
    if ops != [] {
      var before := ops[..|ops| - 1];
      NeverWrapsIff(cfg, st, before);
      if NeverWraps(cfg, st, before) {
        RunBooks(cfg, st, before);
        StepWrapsIff(cfg, Exec(cfg, st, before), TotalDrift(cfg, st, before), ops[|ops| - 1]);
      }
    }
  }

  /** A run whose drift was non-negative up to its last operation does not wrap. */
  lemma {:induction false} NonNegativeNeverWraps<A>(cfg: Config, st: GpuState<A>, ops: seq<Op<A>>)
    requires Books(cfg, st, 0)
    requires ops != [] ==> DriftNeverNegative(cfg, st, ops[..|ops| - 1])
    ensures NeverWraps(cfg, st, ops)
  {
    if ops != [] {
      var before := ops[..|ops| - 1];
      NonNegativeNeverWraps(cfg, st, before);
      RunBooks(cfg, st, before);
      StepWrapsIff(cfg, Exec(cfg, st, before), TotalDrift(cfg, st, before), ops[|ops| - 1]);
    }
  }

  /** An adaptor starts with exact books. */
  lemma InitialBooks<A>(cfg: Config, start: GpuState<A>)
    requires cfg.Valid() && start == InitialState()
    ensures Books(cfg, start, 0)
  {
  }

  lemma BooksBound<A>(cfg: Config, st: GpuState<A>, drift: int)
    requires Books(cfg, st, drift) && drift >= 0
    ensures 0 <= Outstanding(st) <= Owed(st) <= st.total <= Max(cfg.limit, cfg.capacity)
  {
    OwedCovers(st);
  }

  /** The device accounting theorem, from exact books on. Whatever is freed on whatever stream, as
      long as the drift is never negative: callers hold no more than is owed, what is owed is no
      more than the total, the difference is exactly the drift, and the total is within the limits. */
  lemma {:induction false} DeviceAccounting<A>(cfg: Config, st0: GpuState<A>, ops: seq<Op<A>>)
    requires Books(cfg, st0, 0) && DriftNeverNegative(cfg, st0, ops)
    ensures var st := Exec(cfg, st0, ops);
            && 0 <= Outstanding(st) <= Owed(st) <= st.total <= Max(cfg.limit, cfg.capacity)
            && st.total == Owed(st) + TotalDrift(cfg, st0, ops)
  {
    NonNegativeNeverWraps(cfg, st0, ops);
    RunBooks(cfg, st0, ops);
    BooksBound(cfg, Exec(cfg, st0, ops), TotalDrift(cfg, st0, ops));
  }

  /** And that is exactly when the total covers what is owed throughout. */
  lemma {:induction false} CoveredIff<A>(cfg: Config, st: GpuState<A>, ops: seq<Op<A>>)
    requires Books(cfg, st, 0)
    ensures AlwaysCovered(cfg, st, ops) <==> DriftNeverNegative(cfg, st, ops)
  {
    if ops != [] {
      CoveredIff(cfg, st, ops[..|ops| - 1]);
    }
    if ops != [] ==> DriftNeverNegative(cfg, st, ops[..|ops| - 1]) {
      NonNegativeNeverWraps(cfg, st, ops);
      RunBooks(cfg, st, ops);
    }
  }

  /** For an adaptor from its construction on: the total covers what is owed throughout exactly
      when the drift is never negative. */
  lemma {:induction false} CoveredFromStartIff<A>(cfg: Config, start: GpuState<A>, ops: seq<Op<A>>)
    requires cfg.Valid() && start == InitialState()
    ensures AlwaysCovered(cfg, start, ops) <==> DriftNeverNegative(cfg, start, ops)
  {
    InitialBooks(cfg, start);
    CoveredIff(cfg, start, ops);
  }

  /** Then it bounds what callers hold. */
  lemma {:induction false} AccountingFromStart<A>(cfg: Config, start: GpuState<A>, ops: seq<Op<A>>)
    requires cfg.Valid() && start == InitialState() && DriftNeverNegative(cfg, start, ops)
    ensures var st := Exec(cfg, start, ops);
            0 <= Outstanding(st) <= Owed(st) <= st.total <= Max(cfg.limit, cfg.capacity)
  {
    InitialBooks(cfg, start);
    DeviceAccounting(cfg, start, ops);
  }

  /** And the unsigned total never wraps exactly when every subtraction is covered. */
  lemma {:induction false} NeverWrapsFromStartIff<A>(cfg: Config, start: GpuState<A>, ops: seq<Op<A>>)
    requires cfg.Valid() && start == InitialState()
    ensures NeverWraps(cfg, start, ops) <==> CreditsCovered(cfg, start, ops)
  {
    InitialBooks(cfg, start);
    NeverWrapsIff(cfg, start, ops);
  }

  // ----- which frees are safe -----

  /** A caller can check this before freeing: when the buffer straddles the reservation boundary of
      the stream it is freed on, at least half of it lies beyond the boundary. */
  predicate FreeCovered<A(==)>(st: GpuState<A>, ptr: Ptr, stream: Stream) {
    ptr in st.buffers && stream in st.streams && st.streams[stream].arena in st.arenas ==>
      var a := st.arenas[st.streams[stream].arena];
      Straddles(st.buffers[ptr], a.size, a.used) ==> a.used - a.size >= a.size - (a.used - st.buffers[ptr])
  }

  /** From exact books a free leaves the total covering what is owed exactly when `FreeCovered`. */
  lemma FreeCoveredIff<A>(cfg: Config, st: GpuState<A>, ptr: Ptr, stream: Stream)
    requires Books(cfg, st, 0)
    ensures Free(st, ptr, stream).total >= Owed(Free(st, ptr, stream)) <==> FreeCovered(st, ptr, stream)
  {
    CreditOwed(cfg, st, OpFree(ptr, stream));
    NextBooks(cfg, st, 0, OpFree(ptr, stream));
  }

  /** It keeps exact books exact exactly when it does not straddle, or splits evenly. */
  lemma FreeExactIff<A>(cfg: Config, st: GpuState<A>, ptr: Ptr, stream: Stream)
    requires Books(cfg, st, 0) && ptr in st.buffers && stream in st.streams
    ensures var a := st.arenas[st.streams[stream].arena];
            Books(cfg, Free(st, ptr, stream), 0)
            <==> (!Straddles(st.buffers[ptr], a.size, a.used)
                  || a.used - a.size == a.size - (a.used - st.buffers[ptr]))
  {
    CreditOwed(cfg, st, OpFree(ptr, stream));
    NextBooks(cfg, st, 0, OpFree(ptr, stream));
  }

  ghost predicate FreesCovered<A>(cfg: Config, st: GpuState<A>, ops: seq<Op<A>>) {
    ops == [] ||
    var before, op := ops[..|ops| - 1], ops[|ops| - 1];
    FreesCovered(cfg, st, before) && (op.OpFree? ==> FreeCovered(Exec(cfg, st, before), op.ptr, op.stream))
  }

  /** Runs whose frees are all covered, on any stream, keep the accounting theorem. */
  lemma {:induction false} CoveredFreesSuffice<A>(cfg: Config, st: GpuState<A>, ops: seq<Op<A>>)
    requires FreesCovered(cfg, st, ops)
    ensures DriftNeverNegative(cfg, st, ops)
  {
    if ops != [] {
      CoveredFreesSuffice(cfg, st, ops[..|ops| - 1]);
    }
  }

  function BadRun(): seq<Op<nat>> {
    [OpReserve(1024, 0), OpAttach(7, 0, Ignore), OpAllocate(1280, 7, [true], 1), OpFree(1, 7), OpReset(7)]
  }

  function BadState(total: int, peak: int, used: int, buffers: map<Ptr, nat>): GpuState<nat> {
    GpuState(total, peak, 1024, map[0 := Arena(1024, used)], {0}, map[7 := Tracker(0, Ignore)], buffers)
  }

  lemma ExecStep<A>(cfg: Config, st: GpuState<A>, ops: seq<Op<A>>, n: nat)
    requires n < |ops|
    ensures Exec(cfg, st, ops[..n + 1]) == Next(cfg, Exec(cfg, st, ops[..n]), ops[n])
  {
    assert ops[..n + 1][..n] == ops[..n];
  }

  lemma BadRunOpens()
    ensures Exec(Config(4096, 4096), InitialState(), BadRun()[..2]) == BadState(1024, 1024, 0, map[])
  {
    var cfg, s0, ops := Config(4096, 4096), InitialState<nat>(), BadRun();
    assert ops[..0] == [];
    ExecStep(cfg, s0, ops, 0);
    ExecStep(cfg, s0, ops, 1);
  }

  lemma BadRunAllocates()
    ensures Exec(Config(4096, 4096), InitialState(), BadRun()[..3]) == BadState(1280, 1280, 1280, map[1 := 1280])
  {
    var cfg := Config(4096, 4096);
    BadRunOpens();
    ExecStep(cfg, InitialState<nat>(), BadRun(), 2);
    assert Padded(1280) == 1280;
    assert TryAllocate(cfg, 1024, 1024, 256, [true]) == (true, 1280, 1280);
  }

  lemma BadFree()
    ensures Free(BadState(1280, 1280, 1280, map[1 := 1280]), 1, 7) == BadState(256, 1280, 0, map[])
  {
    var st := BadState(1280, 1280, 1280, map[1 := 1280]);
    assert FreeCredit(1280, 1024, 1280) == 1024;
    assert st.buffers - {1} == map[];
  }

  lemma BadRunFrees()
    ensures Exec(Config(4096, 4096), InitialState(), BadRun()[..4]) == BadState(256, 1280, 0, map[])
  {
    BadRunAllocates();
    ExecStep(Config(4096, 4096), InitialState<nat>(), BadRun(), 3);
    BadFree();
  }

  /** Without that the total can fall below what is owed, and then below zero: reserve 1024 bytes
      for a stream, allocate 1280 on it, free them, and drop the reservation. The unsigned total
      wraps to 2^64 - 768. */
  lemma StraddlingFreeUnderflows()
    ensures var st := Exec(Config(4096, 4096), InitialState(), BadRun());
            st.buffers == map[] && st.arenas == map[] && st.total == WORD - 768
  {
    BadRunFrees();
    ExecStep(Config(4096, 4096), InitialState<nat>(), BadRun(), 4);
    assert BadRun()[..5] == BadRun();
  }

  // ----- the reserved-bytes counter -----

  /** What a shrink takes off an arena; `_total_reserved_bytes` is not told. */
  function ShrunkBy<A(==)>(st: GpuState<A>, op: Op<A>): nat {
    if op.OpShrink? && op.arena in st.arenas
    then Max(0, st.arenas[op.arena].size - Max(0, st.arenas[op.arena].used)) else 0
  }

  function TotalShrunk<A(==)>(cfg: Config, st: GpuState<A>, ops: seq<Op<A>>): nat {
    if ops == [] then 0
    else
      var before := ops[..|ops| - 1];
      TotalShrunk(cfg, st, before) + ShrunkBy(Exec(cfg, st, before), ops[|ops| - 1])
  }

  ghost predicate ReservedExact<A>(st: GpuState<A>, shrunk: int) {
    && shrunk >= 0 && st.total >= 0
    && st.arenas.Keys <= st.issued
    && (forall a :: a in st.arenas ==> st.arenas[a].size >= 0)
    && st.reserved == MapSum(st.arenas, Size()) + shrunk
  }

  lemma ReleaseReserved<A>(st: GpuState<A>, shrunk: int, arena: A)
    requires ReservedExact(st, shrunk)
    ensures ReservedExact(Release(st, arena), shrunk)
  {
    if arena in st.arenas {
      MapSumNonNegative(st.arenas, Size());
      MapSumRemove(st.arenas, arena, Size());
      MapSumNonNegative(st.arenas - {arena}, Size());
      assert (st.arenas - {arena}).Keys == st.arenas.Keys - {arena};
    }
  }

  /** Operations that replace one arena by another of size `size`, or leave the arenas alone. */
  lemma ResizeReserved<A>(st: GpuState<A>, st': GpuState<A>, shrunk: int, arena: A, size: nat, given: int)
    requires ReservedExact(st, shrunk) && arena in st.arenas
    requires st'.arenas.Keys == st.arenas.Keys && st'.arenas == st.arenas[arena := st'.arenas[arena]]
    requires st'.arenas[arena].size == size && given >= 0
    requires st'.total >= 0 && st'.issued == st.issued
    requires st'.reserved == st.reserved + size - st.arenas[arena].size + given
    ensures ReservedExact(st', shrunk + given)
  {
    MapSumUpdate(st.arenas, arena, st'.arenas[arena], Size());
  }

  lemma OpenReserved<A>(st: GpuState<A>, st': GpuState<A>, shrunk: int, arena: A, size: nat)
    requires ReservedExact(st, shrunk) && arena !in st.issued
    requires st'.arenas == st.arenas[arena := Arena(size, 0)] && st'.issued == st.issued + {arena}
    requires st'.total >= 0 && st'.reserved == st.reserved + size
    ensures ReservedExact(st', shrunk)
  {
    MapSumInsert(st.arenas, arena, Arena(size, 0), Size());
    assert st'.arenas.Keys == st.arenas.Keys + {arena};
  }

  lemma AllocateReserved<A>(cfg: Config, st: GpuState<A>, shrunk: int, bytes: nat, stream: Stream, attempts: seq<bool>, ptr: Ptr)
    requires ReservedExact(st, shrunk)
    ensures ReservedExact(Allocate(cfg, st, bytes, stream, attempts, ptr).0, shrunk)
  {
    var st' := Allocate(cfg, st, bytes, stream, attempts, ptr).0;
    if st'.arenas != st.arenas {
      var arena := st.streams[stream].arena;
      ResizeReserved(st, st', shrunk, arena, st.arenas[arena].size, 0);
    }
  }

  lemma FreeReserved<A>(st: GpuState<A>, shrunk: int, ptr: Ptr, stream: Stream)
    requires ReservedExact(st, shrunk)
    ensures ReservedExact(Free(st, ptr, stream), shrunk)
  {
    var st' := Free(st, ptr, stream);
    if st'.arenas != st.arenas {
      var arena := st.streams[stream].arena;
      ResizeReserved(st, st', shrunk, arena, st.arenas[arena].size, 0);
    }
  }

  lemma OpeningReserved<A>(cfg: Config, st: GpuState<A>, shrunk: int, op: Op<A>)
    requires ReservedExact(st, shrunk) && (op.OpReserve? || op.OpReserveUpTo?)
    ensures ReservedExact(Next(cfg, st, op), shrunk)
  {
    match op
    case OpReserve(bytes, arena) =>
      var st' := Reserve(cfg, st, bytes, arena);
      if st' != st { OpenReserved(st, st', shrunk, arena, bytes); }
    case OpReserveUpTo(bytes, asked, arena) =>
      if arena !in st.issued {
        OpenReserved(st, ReserveUpTo(cfg, st, bytes, asked, arena), shrunk, arena, Min(asked, Granted(st.total, bytes, cfg.limit)));
      }
  }

  lemma NextReserved<A>(cfg: Config, st: GpuState<A>, shrunk: int, op: Op<A>)
    requires ReservedExact(st, shrunk)
    ensures ReservedExact(Next(cfg, st, op), shrunk + ShrunkBy(st, op))
  {
    match op
    case OpReserve(_, _) => OpeningReserved(cfg, st, shrunk, op);
    case OpReserveUpTo(_, _, _) => OpeningReserved(cfg, st, shrunk, op);
    case OpGrow(arena, bytes) =>
      var st' := Grow(cfg, st, arena, bytes);
      if st' != st { ResizeReserved(st, st', shrunk, arena, st.arenas[arena].size + bytes, 0); }
    case OpShrink(arena) =>
      var st' := Shrink(st, arena);
      if st' != st { ResizeReserved(st, st', shrunk, arena, Max(0, st.arenas[arena].used), ShrunkBy(st, op)); }
    case OpAttach(stream, arena, policy) => ReleaseReserved(st, shrunk, arena);
    case OpReset(stream) => if stream in st.streams { ReleaseReserved(st, shrunk, st.streams[stream].arena); }
    case OpDestroy(arena) => ReleaseReserved(st, shrunk, arena);
    case OpAllocate(bytes, stream, attempts, ptr) => AllocateReserved(cfg, st, shrunk, bytes, stream, attempts, ptr);
    case OpFree(ptr, stream) => FreeReserved(st, shrunk, ptr, stream);
  }

  /** `_total_reserved_bytes` is the sum of the live sizes plus everything ever shrunk away: it
      equals the sum exactly when no shrink of the run took anything. */
  lemma {:induction false} ReservedAccounting<A>(cfg: Config, ops: seq<Op<A>>)
    ensures ReservedExact(Exec(cfg, InitialState(), ops), TotalShrunk(cfg, InitialState(), ops))
    ensures Exec(cfg, InitialState(), ops).reserved == MapSum(Exec(cfg, InitialState(), ops).arenas, Size())
            <==> TotalShrunk(cfg, InitialState(), ops) == 0
  {
    if ops != [] {
      var before := ops[..|ops| - 1];
      ReservedAccounting(cfg, before);
      NextReserved(cfg, Exec(cfg, InitialState(), before), TotalShrunk(cfg, InitialState(), before), ops[|ops| - 1]);
    }
  }
}
