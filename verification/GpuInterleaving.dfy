/** The accounting of the device adaptor in every interleaving of its atomic accesses: how far the
    total is from what it stands for, when a subtraction wraps, and that failed allocations leave
    both counters alone. */
module GpuInterleaving {
  import opened Prelude
  import opened GpuSteps
  import L = GpuLedger

  // ----- what the total stands for -----

  /** What a flight adds to what is owed: bytes charged for nobody yet, bytes on a stream counter
      without a buffer, less what is not charged yet. */
  ghost function InFlight<A>(): Flight<A> -> int {
    (f: Flight<A>) =>
      match f
      case Reserving(amount) => amount
      case Growing(_, amount) => amount
      case Tracked(_, bytes, tracking, _) => bytes - tracking
      case Charged(_, bytes, _) => bytes
      case Freeing(_, credit) => credit
      case Returning(credit) => credit
  }

  ghost function Outstanding<A>(st: Shared<A>): int {
    MapSum(st.buffers, L.Amount())
  }

  ghost function Owed<A>(st: Shared<A>): int {
    MapSum(st.arenas, L.Footprint()) + (Outstanding(st) - MapSum(st.arenas, L.Used())) + MapSum(st.flights, InFlight())
  }

  predicate FlightOk<A(==)>(st: Shared<A>, f: Flight<A>) {
    match f
    case Reserving(_) => true
    case Growing(arena, _) => arena in st.arenas
    case Tracked(from, bytes, tracking, _) => 0 <= tracking <= bytes && (if from.Some? then from.value in st.arenas else tracking == bytes)
    case Charged(from, bytes, tracking) => 0 <= tracking <= bytes && (if from.Some? then from.value in st.arenas else tracking == bytes)
    case Freeing(bytes, credit) => 0 <= credit <= bytes
    case Returning(credit) => credit >= 0
  }

  predicate Wellformed<A(==)>(cfg: L.Config, st: Shared<A>) {
    && cfg.Valid()
    && (forall a :: a in st.arenas ==> st.arenas[a].size >= 0)
    && st.arenas.Keys <= st.issued
    && (forall s :: s in st.streams ==> st.streams[s].arena in st.arenas)
    && (forall s, t :: s in st.streams && t in st.streams && st.streams[s].arena == st.streams[t].arena ==> s == t)
    && (forall t :: t in st.flights ==> FlightOk(st, st.flights[t]))
    && 0 <= st.total <= Max(cfg.limit, cfg.capacity)
  }

  ghost predicate Books<A>(cfg: L.Config, st: Shared<A>, drift: int) {
    Wellformed(cfg, st) && st.total == Owed(st) + drift
  }

  // ----- the drift of each step -----

  /** What taking `bytes` off an arena's use takes off its footprint. */
  function Drop(a: L.Arena, bytes: nat): int {
    Max(a.size, a.used) - Max(a.size, a.used - bytes)
  }

  function Drift<A(==)>(st: Shared<A>, step: Step<A>): int {
    match step
    case DoApplyGrow(t) =>
      if t in st.flights && st.flights[t].Growing? && OwnedBy(st, st.flights[t].arena, t) then
        var a := st.arenas[st.flights[t].arena];
        Min(st.flights[t].amount, Max(0, a.used - a.size))
      else 0
    case DoDestroy(t, arena) =>
      if t !in st.flights && OwnedBy(st, arena, t) && !Attached(st, arena) then Max(0, 0 - st.arenas[arena].used) else 0
    case DoReset(t, stream) =>
      if t !in st.flights && stream in st.streams && OwnedBy(st, st.streams[stream].arena, t)
      then Max(0, 0 - st.arenas[st.streams[stream].arena].used) else 0
    case DoGiveUp(t) =>
      if t in st.flights && st.flights[t].Tracked? && st.flights[t].tried
         && st.flights[t].from.Some? && st.flights[t].from.value in st.arenas
      then Drop(st.arenas[st.flights[t].from.value], st.flights[t].bytes) - st.flights[t].tracking else 0
    case DoFree(t, ptr, stream) =>
      if t in st.flights || ptr !in st.buffers || ArenaOf(st, stream).None? then 0
      else
        var a := st.arenas[ArenaOf(st, stream).value];
        Drop(a, st.buffers[ptr]) - L.FreeCredit(st.buffers[ptr], a.size, a.used)
    case _ => 0
  }

  /** What a step subtracts from the unsigned total. */
  function Credit<A(==)>(st: Shared<A>, step: Step<A>): int {
    match step
    case DoRefund(t) => if t in st.flights && st.flights[t].Charged? then st.flights[t].tracking else 0
    case DoReturn(t) => if t in st.flights && st.flights[t].Returning? then st.flights[t].credit else 0
    case _ => 0
  }

  predicate Wraps<A(==)>(st: Shared<A>, step: Step<A>) {
    Credit(st, step) > st.total
  }

  // ----- what is owed covers every credit -----

  lemma FlightsNonNegative<A>(cfg: L.Config, st: Shared<A>)
    requires Wellformed(cfg, st)
    ensures MapSum(st.flights, InFlight()) >= 0
    ensures forall t :: t in st.flights ==> InFlight()(st.flights[t]) <= MapSum(st.flights, InFlight())
  {
    forall t | t in st.flights
      ensures InFlight()(st.flights[t]) >= 0
    {
      assert FlightOk(st, st.flights[t]);
    }
    MapSumNonNegative(st.flights, InFlight());
  }

  /** Callers hold no more than is owed, and no step takes back more than that. */
  lemma OwedCovers<A>(cfg: L.Config, st: Shared<A>, step: Step<A>)
    requires Wellformed(cfg, st)
    ensures 0 <= Outstanding(st) <= Owed(st)
    ensures 0 <= Credit(st, step) <= Owed(st)
  {
    MapSumNonNegative(st.buffers, L.Amount());
    MapSumLeq(st.arenas, L.Used(), L.Footprint());
    FlightsNonNegative(cfg, st);
    if Credit(st, step) > 0 {
      assert FlightOk(st, st.flights[step.thread]);
    }
  }

  // ----- every step moves the books by its drift -----

  lemma FlyOwed<A>(st: Shared<A>, st': Shared<A>, t: Id, f: Flight<A>)
    requires t !in st.flights && st'.flights == st.flights[t := f]
    ensures MapSum(st'.flights, InFlight()) == MapSum(st.flights, InFlight()) + InFlight()(f)
  {
    MapSumInsert(st.flights, t, f, InFlight());
  }

  lemma LandOwed<A>(st: Shared<A>, st': Shared<A>, t: Id)
    requires t in st.flights && st'.flights == st.flights - {t}
    ensures MapSum(st'.flights, InFlight()) == MapSum(st.flights, InFlight()) - InFlight()(st.flights[t])
  {
    MapSumRemove(st.flights, t, InFlight());
  }

  lemma ArenaOwed<A>(arenas: map<A, L.Arena>, arena: A, a: L.Arena)
    requires arena in arenas
    ensures MapSum(arenas[arena := a], L.Footprint())
            == MapSum(arenas, L.Footprint()) - Max(arenas[arena].size, arenas[arena].used) + Max(a.size, a.used)
    ensures MapSum(arenas[arena := a], L.Used()) == MapSum(arenas, L.Used()) - arenas[arena].used + a.used
  {
    MapSumUpdate(arenas, arena, a, L.Footprint());
    MapSumUpdate(arenas, arena, a, L.Used());
  }

  /** A step that destroys no arena keeps the shape if it does so where it writes. */
  lemma ShapeKept<A>(cfg: L.Config, st: Shared<A>, st': Shared<A>, t: Id)
    requires Wellformed(cfg, st) && st'.streams == st.streams && st.issued <= st'.issued
    requires st.arenas.Keys <= st'.arenas.Keys <= st'.issued
    requires forall a :: a in st'.arenas && (a !in st.arenas || st'.arenas[a] != st.arenas[a]) ==> st'.arenas[a].size >= 0
    requires forall u :: u in st'.flights && u != t ==> u in st.flights && st'.flights[u] == st.flights[u]
    requires t in st'.flights ==> FlightOk(st', st'.flights[t])
    requires 0 <= st'.total <= Max(cfg.limit, cfg.capacity)
    ensures Wellformed(cfg, st')
  {
    forall u | u in st'.flights
      ensures FlightOk(st', st'.flights[u])
    {
      if u != t { assert FlightOk(st, st.flights[u]); }
    }
  }

  lemma ReserveBooks<A>(cfg: L.Config, st: Shared<A>, drift: int, t: Id, bytes: nat)
    requires Books(cfg, st, drift)
    ensures Books(cfg, ChargeReserve(cfg, st, t, bytes), drift)
  {
    var st' := ChargeReserve(cfg, st, t, bytes);
    if st' != st {
      FlyOwed(st, st', t, Reserving(bytes));
      ShapeKept(cfg, st, st', t);
    }
  }

  lemma ReserveUpToBooks<A>(cfg: L.Config, st: Shared<A>, drift: int, t: Id, bytes: nat, asked: nat)
    requires Books(cfg, st, drift)
    ensures Books(cfg, ChargeReserveUpTo(cfg, st, t, bytes, asked), drift)
  {
    var st' := ChargeReserveUpTo(cfg, st, t, bytes, asked);
    if t !in st.flights {
      FlyOwed(st, st', t, st'.flights[t]);
      ShapeKept(cfg, st, st', t);
    }
  }

  lemma OpenBooks<A>(cfg: L.Config, st: Shared<A>, drift: int, t: Id, arena: A)
    requires Books(cfg, st, drift)
    ensures Books(cfg, Open(st, t, arena), drift)
  {
    var st' := Open(st, t, arena);
    if st' != st {
      LandOwed(st, st', t);
      MapSumInsert(st.arenas, arena, st'.arenas[arena], L.Footprint());
      MapSumInsert(st.arenas, arena, st'.arenas[arena], L.Used());
      ShapeKept(cfg, st, st', t);
    }
  }

  lemma ChargeGrowBooks<A>(cfg: L.Config, st: Shared<A>, drift: int, t: Id, arena: A, bytes: nat)
    requires Books(cfg, st, drift)
    ensures Books(cfg, ChargeGrow(cfg, st, t, arena, bytes), drift)
  {
    var st' := ChargeGrow(cfg, st, t, arena, bytes);
    if st' != st {
      FlyOwed(st, st', t, Growing(arena, bytes));
      ShapeKept(cfg, st, st', t);
    }
  }

  lemma ApplyGrowShape<A>(cfg: L.Config, st: Shared<A>, t: Id)
    requires Wellformed(cfg, st)
    ensures Wellformed(cfg, ApplyGrow(st, t))
  {
    ShapeKept(cfg, st, ApplyGrow(st, t), t);
  }

  lemma ApplyGrowBooks<A>(cfg: L.Config, st: Shared<A>, drift: int, t: Id)
    requires Books(cfg, st, drift)
    ensures Books(cfg, ApplyGrow(st, t), drift + Drift(st, DoApplyGrow(t)))
  {
    var st' := ApplyGrow(st, t);
    ApplyGrowShape(cfg, st, t);
    if t in st.flights && st.flights[t].Growing? && OwnedBy(st, st.flights[t].arena, t) {
      LandOwed(st, st', t);
      ArenaOwed(st.arenas, st.flights[t].arena, st'.arenas[st.flights[t].arena]);
    }
  }

  lemma ShrinkBooks<A>(cfg: L.Config, st: Shared<A>, drift: int, t: Id, arena: A)
    requires Books(cfg, st, drift)
    ensures Books(cfg, Shrink(st, t, arena), drift)
  {
    var st' := Shrink(st, t, arena);
    if st' != st {
      FlyOwed(st, st', t, st'.flights[t]);
      ArenaOwed(st.arenas, arena, st'.arenas[arena]);
      ShapeKept(cfg, st, st', t);
    }
  }

  /** Destroying an arena, whether or not a stream goes with it. */
  predicate Destroys<A(==)>(st: Shared<A>, st': Shared<A>, t: Id, arena: A) {
    && t !in st.flights && OwnedBy(st, arena, t)
    && (forall s :: s in st'.streams ==> s in st.streams && st'.streams[s] == st.streams[s] && st.streams[s].arena != arena)
    && st' == st.(arenas := st.arenas - {arena}, streams := st'.streams,
                  flights := st.flights[t := Returning(ReleaseCredit(st.arenas[arena]))])
  }

  lemma DestroysShape<A>(cfg: L.Config, st: Shared<A>, st': Shared<A>, t: Id, arena: A)
    requires Wellformed(cfg, st) && Destroys(st, st', t, arena)
    ensures Wellformed(cfg, st')
  {
    forall u | u in st'.flights
      ensures FlightOk(st', st'.flights[u])
    {
      assert u != t ==> FlightOk(st, st.flights[u]) && ArenaIn(st.flights[u]) != Some(arena);
    }
  }

  lemma DestroysBooks<A>(cfg: L.Config, st: Shared<A>, drift: int, st': Shared<A>, t: Id, arena: A)
    requires Books(cfg, st, drift) && Destroys(st, st', t, arena)
    ensures Books(cfg, st', drift + Max(0, 0 - st.arenas[arena].used))
  {
    DestroysShape(cfg, st, st', t, arena);
    FlyOwed(st, st', t, st'.flights[t]);
    MapSumRemove(st.arenas, arena, L.Footprint());
    MapSumRemove(st.arenas, arena, L.Used());
  }

  lemma DestroyBooks<A>(cfg: L.Config, st: Shared<A>, drift: int, t: Id, arena: A)
    requires Books(cfg, st, drift)
    ensures Books(cfg, Destroy(st, t, arena), drift + Drift(st, DoDestroy(t, arena)))
  {
    if t !in st.flights && OwnedBy(st, arena, t) && !Attached(st, arena) {
      DestroysBooks(cfg, st, drift, Destroy(st, t, arena), t, arena);
    }
  }

  lemma ResetBooks<A>(cfg: L.Config, st: Shared<A>, drift: int, t: Id, stream: Id)
    requires Books(cfg, st, drift)
    ensures Books(cfg, Reset(st, t, stream), drift + Drift(st, DoReset(t, stream)))
  {
    if t !in st.flights && stream in st.streams && OwnedBy(st, st.streams[stream].arena, t) {
      DestroysBooks(cfg, st, drift, Reset(st, t, stream), t, st.streams[stream].arena);
    }
  }

  lemma TrackShape<A>(cfg: L.Config, st: Shared<A>, t: Id, bytes: nat, stream: Id)
    requires Wellformed(cfg, st)
    ensures Wellformed(cfg, Track(st, t, bytes, stream))
  {
    var st' := Track(st, t, bytes, stream);
    if st' != st {
      ShapeKept(cfg, st, st', t);
    }
  }

  /** Raising the stream counter raises the footprint by exactly the part to charge. */
  lemma TrackOwed<A>(st: Shared<A>, t: Id, bytes: nat, stream: Id)
    ensures Owed(Track(st, t, bytes, stream)) == Owed(st)
  {
    var st' := Track(st, t, bytes, stream);
    if st' != st {
      FlyOwed(st, st', t, st'.flights[t]);
      var arena := ArenaOf(st, stream);
      if arena.Some? {
        ArenaOwed(st.arenas, arena.value, st'.arenas[arena.value]);
      }
    }
  }

  lemma TrackBooks<A>(cfg: L.Config, st: Shared<A>, drift: int, t: Id, bytes: nat, stream: Id)
    requires Books(cfg, st, drift)
    ensures Books(cfg, Track(st, t, bytes, stream), drift)
  {
    TrackShape(cfg, st, t, bytes, stream);
    TrackOwed(st, t, bytes, stream);
  }

  lemma ChargeShape<A>(cfg: L.Config, st: Shared<A>, t: Id)
    requires Wellformed(cfg, st)
    ensures Wellformed(cfg, Charge(cfg, st, t))
  {
    var st' := Charge(cfg, st, t);
    if st' != st {
      assert FlightOk(st, st.flights[t]);
      ShapeKept(cfg, st, st', t);
    }
  }

  lemma ChargeBooks<A>(cfg: L.Config, st: Shared<A>, drift: int, t: Id)
    requires Books(cfg, st, drift)
    ensures Books(cfg, Charge(cfg, st, t), drift)
  {
    var st' := Charge(cfg, st, t);
    ChargeShape(cfg, st, t);
    if st' != st {
      MapSumUpdate(st.flights, t, st'.flights[t], InFlight());
    }
  }

  lemma RefundBooks<A>(cfg: L.Config, st: Shared<A>, drift: int, t: Id)
    requires Books(cfg, st, drift) && !Wraps(st, DoRefund(t))
    ensures Books(cfg, Refund(st, t), drift)
  {
    var st' := Refund(st, t);
    if st' != st {
      assert FlightOk(st, st.flights[t]);
      MapSumUpdate(st.flights, t, st'.flights[t], InFlight());
      ShapeKept(cfg, st, st', t);
    }
  }

  lemma DeliverBooks<A>(cfg: L.Config, st: Shared<A>, drift: int, t: Id, ptr: Id)
    requires Books(cfg, st, drift)
    ensures Books(cfg, Deliver(st, t, ptr), drift)
  {
    var st' := Deliver(st, t, ptr);
    if st' != st {
      LandOwed(st, st', t);
      MapSumInsert(st.buffers, ptr, st.flights[t].bytes, L.Amount());
      ShapeKept(cfg, st, st', t);
    }
  }

  lemma GiveUpShape<A>(cfg: L.Config, st: Shared<A>, t: Id)
    requires Wellformed(cfg, st)
    ensures Wellformed(cfg, GiveUp(st, t))
  {
    var st' := GiveUp(st, t);
    if t in st.flights && st.flights[t].Tracked? && st.flights[t].tried {
      ShapeKept(cfg, st, st', t);
    }
  }

  lemma GiveUpBooks<A>(cfg: L.Config, st: Shared<A>, drift: int, t: Id)
    requires Books(cfg, st, drift)
    ensures Books(cfg, GiveUp(st, t), drift + Drift(st, DoGiveUp(t)))
  {
    var st' := GiveUp(st, t);
    GiveUpShape(cfg, st, t);
    if t in st.flights && st.flights[t].Tracked? && st.flights[t].tried {
      assert FlightOk(st, st.flights[t]);
      LandOwed(st, st', t);
      if st.flights[t].from.Some? {
        ArenaOwed(st.arenas, st.flights[t].from.value, st'.arenas[st.flights[t].from.value]);
      }
    }
  }

  lemma FreeShape<A>(cfg: L.Config, st: Shared<A>, t: Id, ptr: Id, stream: Id)
    requires Wellformed(cfg, st)
    ensures Wellformed(cfg, Free(st, t, ptr, stream))
  {
    var st' := Free(st, t, ptr, stream);
    if t !in st.flights && ptr in st.buffers {
      ShapeKept(cfg, st, st', t);
    }
  }

  lemma FreeOwed<A>(st: Shared<A>, t: Id, ptr: Id, stream: Id)
    ensures Owed(Free(st, t, ptr, stream)) == Owed(st) - Drift(st, DoFree(t, ptr, stream))
  {
    var st' := Free(st, t, ptr, stream);
    if t !in st.flights && ptr in st.buffers {
      FlyOwed(st, st', t, st'.flights[t]);
      MapSumRemove(st.buffers, ptr, L.Amount());
      var arena := ArenaOf(st, stream);
      if arena.Some? {
        ArenaOwed(st.arenas, arena.value, st'.arenas[arena.value]);
      }
    }
  }

  lemma FreeBooks<A>(cfg: L.Config, st: Shared<A>, drift: int, t: Id, ptr: Id, stream: Id)
    requires Books(cfg, st, drift)
    ensures Books(cfg, Free(st, t, ptr, stream), drift + Drift(st, DoFree(t, ptr, stream)))
  {
    FreeShape(cfg, st, t, ptr, stream);
    FreeOwed(st, t, ptr, stream);
  }

  lemma DeallocateBooks<A>(cfg: L.Config, st: Shared<A>, drift: int, t: Id)
    requires Books(cfg, st, drift)
    ensures Books(cfg, Deallocate(st, t), drift)
  {
    var st' := Deallocate(st, t);
    if st' != st {
      assert FlightOk(st, st.flights[t]);
      MapSumUpdate(st.flights, t, st'.flights[t], InFlight());
      ShapeKept(cfg, st, st', t);
    }
  }

  lemma ReturnBooks<A>(cfg: L.Config, st: Shared<A>, drift: int, t: Id)
    requires Books(cfg, st, drift) && !Wraps(st, DoReturn(t))
    ensures Books(cfg, Return(st, t), drift)
  {
    var st' := Return(st, t);
    if st' != st {
      assert FlightOk(st, st.flights[t]);
      LandOwed(st, st', t);
      ShapeKept(cfg, st, st', t);
    }
  }

  lemma AttachBooks<A>(cfg: L.Config, st: Shared<A>, drift: int, stream: Id, arena: A, policy: L.Policy)
    requires Books(cfg, st, drift)
    ensures Books(cfg, Attach(st, stream, arena, policy), drift)
  {
    var st' := Attach(st, stream, arena, policy);
    forall u | u in st'.flights
      ensures FlightOk(st', st'.flights[u])
    {
      assert FlightOk(st, st.flights[u]);
    }
  }

  predicate Allocates<A(==)>(step: Step<A>) {
    step.DoTrack? || step.DoCharge? || step.DoDeliver? || step.DoRefund? || step.DoGiveUp?
  }

  lemma AllocationBooks<A>(cfg: L.Config, st: Shared<A>, drift: int, step: Step<A>)
    requires Books(cfg, st, drift) && !Wraps(st, step) && Allocates(step)
    ensures Books(cfg, Next(cfg, st, step), drift + Drift(st, step))
  {
    match step
    case DoTrack(t, bytes, stream) => TrackBooks(cfg, st, drift, t, bytes, stream);
    case DoCharge(t) => ChargeBooks(cfg, st, drift, t);
    case DoDeliver(t, ptr) => DeliverBooks(cfg, st, drift, t, ptr);
    case DoRefund(t) => RefundBooks(cfg, st, drift, t);
    case DoGiveUp(t) => GiveUpBooks(cfg, st, drift, t);
  }

  /** Whatever the drift so far: a step that does not wrap moves the books by exactly its drift. */
  lemma NextBooks<A>(cfg: L.Config, st: Shared<A>, drift: int, step: Step<A>)
    requires Books(cfg, st, drift) && !Wraps(st, step)
    ensures Books(cfg, Next(cfg, st, step), drift + Drift(st, step))
  {
    match step
    case DoChargeReserve(t, bytes) => ReserveBooks(cfg, st, drift, t, bytes);
    case DoChargeReserveUpTo(t, bytes, asked) => ReserveUpToBooks(cfg, st, drift, t, bytes, asked);
    case DoOpen(t, arena) => OpenBooks(cfg, st, drift, t, arena);
    case DoChargeGrow(t, arena, bytes) => ChargeGrowBooks(cfg, st, drift, t, arena, bytes);
    case DoApplyGrow(t) => ApplyGrowBooks(cfg, st, drift, t);
    case DoShrink(t, arena) => ShrinkBooks(cfg, st, drift, t, arena);
    case DoDestroy(t, arena) => DestroyBooks(cfg, st, drift, t, arena);
    case DoReset(t, stream) => ResetBooks(cfg, st, drift, t, stream);
    case DoAttach(_, stream, arena, policy) => AttachBooks(cfg, st, drift, stream, arena, policy);
    case DoFree(t, ptr, stream) => FreeBooks(cfg, st, drift, t, ptr, stream);
    case DoDeallocate(t) => DeallocateBooks(cfg, st, drift, t);
    case DoReturn(t) => ReturnBooks(cfg, st, drift, t);
    case _ => AllocationBooks(cfg, st, drift, step);
  }

  /** A step wraps exactly when it takes back more than is owed plus the drift; then the drift is
      negative. */
  lemma StepWrapsIff<A>(cfg: L.Config, st: Shared<A>, drift: int, step: Step<A>)
    requires Books(cfg, st, drift)
    ensures Wraps(st, step) <==> Credit(st, step) > Owed(st) + drift
    ensures Wraps(st, step) ==> drift < 0
  {
    OwedCovers(cfg, st, step);
  }

  /** A try that works. */
  lemma DeliveredBooks<A>(cfg: L.Config, st: Shared<A>, drift: int, t: Id, ptr: Id)
    requires Books(cfg, st, drift)
    ensures Books(cfg, Deliver(Charge(cfg, st, t), t, ptr), drift)
  {
    ChargeBooks(cfg, st, drift, t);
    DeliverBooks(cfg, Charge(cfg, st, t), drift, t, ptr);
  }

  /** The end of a free whose credit does not wrap. */
  lemma FreedBooks<A>(cfg: L.Config, st: Shared<A>, drift: int, t: Id)
    requires Books(cfg, st, drift)
    requires t in st.flights && st.flights[t].Freeing? ==> st.flights[t].credit <= st.total
    requires t in st.flights && st.flights[t].Returning? ==> st.flights[t].credit <= st.total
    ensures Books(cfg, Return(Deallocate(st, t), t), drift)
  {
    DeallocateBooks(cfg, st, drift, t);
    ReturnBooks(cfg, Deallocate(st, t), drift, t);
  }

  // ----- runs -----

  function TotalDrift<A(==)>(cfg: L.Config, st: Shared<A>, steps: seq<Step<A>>): int {
    if steps == [] then 0
    else
      var before := steps[..|steps| - 1];
      TotalDrift(cfg, st, before) + Drift(Run(cfg, st, before), steps[|steps| - 1])
  }

  ghost predicate NeverWraps<A>(cfg: L.Config, st: Shared<A>, steps: seq<Step<A>>) {
    steps == [] ||
    (NeverWraps(cfg, st, steps[..|steps| - 1]) && !Wraps(Run(cfg, st, steps[..|steps| - 1]), steps[|steps| - 1]))
  }

  /** Every step takes back at most what is owed plus the drift so far. */
  ghost predicate CreditsCovered<A>(cfg: L.Config, st: Shared<A>, steps: seq<Step<A>>) {
    steps == [] ||
    var before := steps[..|steps| - 1];
    && CreditsCovered(cfg, st, before)
    && Credit(Run(cfg, st, before), steps[|steps| - 1]) <= Owed(Run(cfg, st, before)) + TotalDrift(cfg, st, before)
  }

  ghost predicate DriftNeverNegative<A>(cfg: L.Config, st: Shared<A>, steps: seq<Step<A>>) {
    TotalDrift(cfg, st, steps) >= 0 && (steps == [] || DriftNeverNegative(cfg, st, steps[..|steps| - 1]))
  }

  /** The total covers what is owed after every step. */
  ghost predicate AlwaysCovered<A>(cfg: L.Config, st: Shared<A>, steps: seq<Step<A>>) {
    Run(cfg, st, steps).total >= Owed(Run(cfg, st, steps)) && (steps == [] || AlwaysCovered(cfg, st, steps[..|steps| - 1]))
  }

  lemma StartBooks<A>(cfg: L.Config, start: Shared<A>)
    requires cfg.Valid() && start == Start()
    ensures Books(cfg, start, 0)
  {
  }

  lemma {:induction false} RunBooks<A>(cfg: L.Config, st: Shared<A>, steps: seq<Step<A>>)
    requires Books(cfg, st, 0) && NeverWraps(cfg, st, steps)
    ensures Books(cfg, Run(cfg, st, steps), TotalDrift(cfg, st, steps))
  {
    if steps != [] {
      var before := steps[..|steps| - 1];
      RunBooks(cfg, st, before);
      NextBooks(cfg, Run(cfg, st, before), TotalDrift(cfg, st, before), steps[|steps| - 1]);
    }
  }

  /** In any interleaving: no subtraction wraps exactly when every one is covered. */
  lemma {:induction false} NeverWrapsIff<A>(cfg: L.Config, st: Shared<A>, steps: seq<Step<A>>)
    requires Books(cfg, st, 0)
    ensures NeverWraps(cfg, st, steps) <==> CreditsCovered(cfg, st, steps)
  {
    if steps != [] {
      var before := steps[..|steps| - 1];
      NeverWrapsIff(cfg, st, before);
      if NeverWraps(cfg, st, before) {
        RunBooks(cfg, st, before);
        StepWrapsIff(cfg, Run(cfg, st, before), TotalDrift(cfg, st, before), steps[|steps| - 1]);
      }
    }
  }

  lemma {:induction false} NonNegativeNeverWraps<A>(cfg: L.Config, st: Shared<A>, steps: seq<Step<A>>)
    requires Books(cfg, st, 0)
    requires steps != [] ==> DriftNeverNegative(cfg, st, steps[..|steps| - 1])
    ensures NeverWraps(cfg, st, steps)
  {
    if steps != [] {
      var before := steps[..|steps| - 1];
      NonNegativeNeverWraps(cfg, st, before);
      RunBooks(cfg, st, before);
      StepWrapsIff(cfg, Run(cfg, st, before), TotalDrift(cfg, st, before), steps[|steps| - 1]);
    }
  }

  /** The total covers what is owed after every step exactly when the drift is never negative. */
  lemma {:induction false} CoveredIff<A>(cfg: L.Config, st: Shared<A>, steps: seq<Step<A>>)
    requires Books(cfg, st, 0)
    ensures AlwaysCovered(cfg, st, steps) <==> DriftNeverNegative(cfg, st, steps)
  {
    if steps != [] {
      CoveredIff(cfg, st, steps[..|steps| - 1]);
    }
    if steps != [] ==> DriftNeverNegative(cfg, st, steps[..|steps| - 1]) {
      NonNegativeNeverWraps(cfg, st, steps);
      RunBooks(cfg, st, steps);
    }
  }

  /** The device accounting in every interleaving from the start on, as long as no subtraction has
      wrapped: callers hold no more than is owed, the total differs from what is owed by exactly
      the accumulated drift, and it is within the limits. */
  lemma {:induction false} InterleavedAccounting<A>(cfg: L.Config, start: Shared<A>, steps: seq<Step<A>>)
    requires cfg.Valid() && start == Start() && NeverWraps(cfg, start, steps)
    ensures var st := Run(cfg, start, steps);
            && 0 <= Outstanding(st) <= Owed(st)
            && st.total == Owed(st) + TotalDrift(cfg, start, steps)
            && 0 <= st.total <= Max(cfg.limit, cfg.capacity)
  {
    StartBooks(cfg, start);
    RunBooks(cfg, start, steps);
    OwedCovers(cfg, Run(cfg, start, steps), DoReturn(0));
  }

  // ----- which steps make the total fall short -----

  /** A free whose buffer straddles the reservation boundary as the stream counter stands, with
      less than half of it beyond. */
  predicate ShortFree<A(==)>(st: Shared<A>, step: Step<A>) {
    && step.DoFree? && step.thread !in st.flights && step.ptr in st.buffers && ArenaOf(st, step.stream).Some?
    && var a, bytes := st.arenas[ArenaOf(st, step.stream).value], st.buffers[step.ptr];
       L.Straddles(bytes, a.size, a.used) && a.used - a.size < a.size - (a.used - bytes)
  }

  /** A failed allocation that gives up while its bytes reach less far beyond the reservation than
      when it came in. */
  predicate ShortGiveUp<A(==)>(st: Shared<A>, step: Step<A>) {
    && step.DoGiveUp? && step.thread in st.flights && st.flights[step.thread].Tracked? && st.flights[step.thread].tried
    && var f := st.flights[step.thread];
       f.from.Some? && f.from.value in st.arenas && Drop(st.arenas[f.from.value], f.bytes) < f.tracking
  }

  /** No other step takes the total below what is owed. */
  lemma NegativeDriftIff<A>(st: Shared<A>, step: Step<A>)
    ensures Drift(st, step) < 0 <==> ShortFree(st, step) || ShortGiveUp(st, step)
  {
  }

  ghost predicate NothingShort<A>(cfg: L.Config, st: Shared<A>, steps: seq<Step<A>>) {
    steps == [] ||
    var before, step := steps[..|steps| - 1], steps[|steps| - 1];
    && NothingShort(cfg, st, before)
    && !ShortFree(Run(cfg, st, before), step) && !ShortGiveUp(Run(cfg, st, before), step)
  }

  /** A run without such a step, whatever the interleaving and whatever streams the frees name,
      keeps the total at or above what is owed throughout, and never wraps. */
  lemma {:induction false} NothingShortSuffices<A>(cfg: L.Config, st: Shared<A>, steps: seq<Step<A>>)
    requires Books(cfg, st, 0) && NothingShort(cfg, st, steps)
    ensures DriftNeverNegative(cfg, st, steps) && AlwaysCovered(cfg, st, steps) && NeverWraps(cfg, st, steps)
  {
    if steps != [] {
      NothingShortSuffices(cfg, st, steps[..|steps| - 1]);
      NegativeDriftIff(Run(cfg, st, steps[..|steps| - 1]), steps[|steps| - 1]);
    }
    CoveredIff(cfg, st, steps);
    NonNegativeNeverWraps(cfg, st, steps);
  }

  // ----- the memory upstream -----

  ghost function StillHeld<A>(): Flight<A> -> int {
    (f: Flight<A>) => if f.Freeing? then f.bytes else 0
  }

  /** The part of a buffer on its way back that nothing is charged for any more. */
  ghost function Uncharged<A>(): Flight<A> -> int {
    (f: Flight<A>) => if f.Freeing? then f.bytes - f.credit else 0
  }

  ghost function Charges<A>(): Flight<A> -> int {
    (f: Flight<A>) => InFlight<A>()(f) + Uncharged<A>()(f)
  }

  /** What the upstream resource has handed out and not got back. */
  ghost function HeldUpstream<A>(st: Shared<A>): int {
    Outstanding(st) + MapSum(st.flights, StillHeld())
  }

  /** The upstream resource never holds more for this adaptor than the total accounts for, plus
      the drift, plus the reserved part of buffers that are off their stream counter but not yet
      given back. */
  lemma HeldUpstreamBound<A>(cfg: L.Config, st: Shared<A>, drift: int)
    requires Books(cfg, st, drift)
    ensures Outstanding(st) <= HeldUpstream(st) <= st.total - drift + MapSum(st.flights, Uncharged())
  {
    forall t | t in st.flights
      ensures 0 <= StillHeld<A>()(st.flights[t]) <= Charges<A>()(st.flights[t])
    {
      assert FlightOk(st, st.flights[t]);
    }
    MapSumNonNegative(st.flights, StillHeld());
    MapSumLeq(st.flights, StillHeld(), Charges());
    MapSumAdd(st.flights, Charges(), InFlight(), Uncharged());
    MapSumLeq(st.arenas, L.Used(), L.Footprint());
  }

  /** The same from the start on, in every interleaving in which no subtraction has wrapped. */
  lemma {:induction false} HeldUpstreamThroughout<A>(cfg: L.Config, start: Shared<A>, steps: seq<Step<A>>)
    requires cfg.Valid() && start == Start() && NeverWraps(cfg, start, steps)
    ensures var st := Run(cfg, start, steps);
            HeldUpstream(st) <= st.total - TotalDrift(cfg, start, steps) + MapSum(st.flights, Uncharged())
  {
    StartBooks(cfg, start);
    RunBooks(cfg, start, steps);
    HeldUpstreamBound(cfg, Run(cfg, start, steps), TotalDrift(cfg, start, steps));
  }

  // ----- giving up -----

  /** A failed allocation leaves the books alone exactly when, at the moment it gives up, its bytes
      reach as far beyond the reservation as they did when it came in. */
  lemma GiveUpExactIff<A>(cfg: L.Config, st: Shared<A>, drift: int, t: Id)
    requires Books(cfg, st, drift) && t in st.flights && st.flights[t].Tracked? && st.flights[t].tried && st.flights[t].from.Some?
    ensures var f := st.flights[t];
            f.from.value in st.arenas
            && (Books(cfg, GiveUp(st, t), drift) <==> Drop(st.arenas[f.from.value], f.bytes) == f.tracking)
  {
    assert FlightOk(st, st.flights[t]);
    GiveUpBooks(cfg, st, drift, t);
  }
}
