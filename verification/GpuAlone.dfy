/** A thread left alone with a public operation of the device adaptor takes the steps of `GpuSteps`
    to exactly where `GpuLedger` says. */
module GpuAlone {
  import opened Prelude
  import opened AtomicCounters
  import opened GpuSteps
  import L = GpuLedger

  /** The ledger state with nobody inside an operation. */
  function Lift<A>(g: L.GpuState<A>): Shared<A> {
    Shared(g.total, g.arenas, g.issued, g.streams, g.buffers, map[])
  }

  /** The tries of one allocation: charge, and deliver or refund, until one works or the policy
      has had enough. */
  function Tries<A(==)>(cfg: L.Config, st: Shared<A>, t: Id, attempts: seq<bool>, ptr: Id): Shared<A>
    requires t in st.flights
    decreases |attempts|
  {
    var charged := Charge(cfg, st, t);
    if charged.flights[t].Charged? && attempts != [] && attempts[0] then Deliver(charged, t, ptr)
    else
      var failed := Refund(charged, t);
      if |attempts| <= 1 then GiveUp(failed, t) else Tries(cfg, failed, t, attempts[1..], ptr)
  }

  /** One public operation, step by step, in one thread. */
  function Alone<A(==)>(cfg: L.Config, st: Shared<A>, t: Id, op: L.Op<A>): Shared<A> {
    match op
    case OpReserve(bytes, arena) =>
      if arena in st.issued then st else Open(ChargeReserve(cfg, st, t, bytes), t, arena)
    case OpReserveUpTo(bytes, asked, arena) =>
      if arena in st.issued then st else Open(ChargeReserveUpTo(cfg, st, t, bytes, asked), t, arena)
    case OpGrow(arena, bytes) => ApplyGrow(ChargeGrow(cfg, st, t, arena, bytes), t)
    case OpShrink(arena) => Return(Shrink(st, t, arena), t)
    case OpAttach(stream, arena, policy) =>
      if stream in st.streams then Return(Destroy(st, t, arena), t) else Attach(st, stream, arena, policy)
    case OpReset(stream) => Return(Reset(st, t, stream), t)
    case OpDestroy(arena) => Return(Destroy(st, t, arena), t)
    case OpAllocate(bytes, stream, attempts, ptr) =>
      var tracked := Track(st, t, bytes, stream);
      if ptr in st.buffers || t !in tracked.flights then st else Tries(cfg, tracked, t, attempts, ptr)
    case OpFree(ptr, stream) => Return(Deallocate(Free(st, t, ptr, stream), t), t)
  }

  /** A charge that is refused or refunded changes nothing but the mark that there was a try. */
  lemma FailedTry<A>(cfg: L.Config, st: Shared<A>, t: Id)
    requires t in st.flights && st.flights[t].Tracked? && st.total >= 0
    ensures Refund(Charge(cfg, st, t), t) == Fly(st, t, st.flights[t].(tried := true))
  {
    assert Refund(Charge(cfg, st, t), t).flights == st.flights[t := st.flights[t].(tried := true)];
  }

  /** Where the tries of `f` end: with the buffer and the charge, or with the stream counter
      taken back. */
  function Ended<A(==)>(st: Shared<A>, t: Id, f: Flight<A>, ok: bool, total: int, ptr: Id): Shared<A>
    requires f.Tracked?
  {
    Land(if ok then st.(total := total, buffers := st.buffers[ptr := f.bytes]) else AddUsed(st, f.from, 0 - f.bytes), t)
  }

  /** The mark makes no difference to the end. */
  lemma MarkForgotten<A>(st: Shared<A>, t: Id, f: Flight<A>, ok: bool, total: int, ptr: Id)
    requires f.Tracked?
    ensures Ended(Fly(st, t, f), t, f, ok, total, ptr) == Ended(st, t, f, ok, total, ptr)
  {
    assert st.flights[t := f] - {t} == st.flights - {t};
  }

  lemma TryWorks<A>(cfg: L.Config, st: Shared<A>, t: Id, ptr: Id)
    requires t in st.flights && st.flights[t].Tracked? && ptr !in st.buffers
    requires Fits(st.total, st.flights[t].tracking, cfg.capacity)
    ensures Deliver(Charge(cfg, st, t), t, ptr)
            == Ended(st, t, st.flights[t], true, st.total + st.flights[t].tracking, ptr)
  {
    assert Charge(cfg, st, t).flights - {t} == st.flights - {t};
  }

  lemma GivesUp<A>(st: Shared<A>, t: Id, f: Flight<A>, ptr: Id)
    requires f.Tracked? && f.tried
    ensures GiveUp(Fly(st, t, f), t) == Ended(st, t, f, false, 0, ptr)
  {
    MarkForgotten(st, t, f, false, 0, ptr);
  }

  lemma TryFails<A>(cfg: L.Config, st: Shared<A>, t: Id, attempts: seq<bool>, ptr: Id)
    requires t in st.flights && st.flights[t].Tracked? && st.total >= 0
    requires !(Fits(st.total, st.flights[t].tracking, cfg.capacity) && attempts != [] && attempts[0])
    ensures var marked := Fly(st, t, st.flights[t].(tried := true));
            Tries(cfg, st, t, attempts, ptr)
            == if |attempts| <= 1 then GiveUp(marked, t) else Tries(cfg, marked, t, attempts[1..], ptr)
  {
    FailedTry(cfg, st, t);
  }

  /** The tries from here end as the ledger's do. */
  predicate EndsAsLedger<A(==)>(cfg: L.Config, st: Shared<A>, t: Id, attempts: seq<bool>, ptr: Id, peak: int)
    requires t in st.flights && st.flights[t].Tracked?
  {
    var (ok, total, _) := L.TryAllocate(cfg, st.total, peak, st.flights[t].tracking, attempts);
    Tries(cfg, st, t, attempts, ptr) == Ended(st, t, st.flights[t], ok, total, ptr)
  }

  lemma LastTry<A>(cfg: L.Config, st: Shared<A>, t: Id, attempts: seq<bool>, ptr: Id, peak: int)
    requires t in st.flights && st.flights[t].Tracked? && st.total >= 0 && |attempts| <= 1
    requires !(Fits(st.total, st.flights[t].tracking, cfg.capacity) && attempts != [] && attempts[0])
    ensures EndsAsLedger(cfg, st, t, attempts, ptr, peak)
  {
    TryFails(cfg, st, t, attempts, ptr);
    GivesUp(st, t, st.flights[t].(tried := true), ptr);
  }

  lemma OneMoreTry<A>(cfg: L.Config, st: Shared<A>, t: Id, attempts: seq<bool>, ptr: Id, peak: int, peak': int)
    requires t in st.flights && st.flights[t].Tracked? && st.total >= 0 && |attempts| > 1
    requires var fits := Fits(st.total, st.flights[t].tracking, cfg.capacity);
             !(fits && attempts[0]) && peak' == if fits then Max(peak, st.total + st.flights[t].tracking) else peak
    requires EndsAsLedger(cfg, Fly(st, t, st.flights[t].(tried := true)), t, attempts[1..], ptr, peak')
    ensures EndsAsLedger(cfg, st, t, attempts, ptr, peak)
  {
    var f := st.flights[t].(tried := true);
    TryFails(cfg, st, t, attempts, ptr);
    var (ok, total, _) := L.TryAllocate(cfg, st.total, peak', f.tracking, attempts[1..]);
    MarkForgotten(st, t, f, ok, total, ptr);
  }

  lemma {:induction false} TriesEnd<A>(cfg: L.Config, st: Shared<A>, t: Id, attempts: seq<bool>, ptr: Id, peak: int)
    requires t in st.flights && st.flights[t].Tracked? && ptr !in st.buffers && st.total >= 0
    ensures EndsAsLedger(cfg, st, t, attempts, ptr, peak)
    decreases |attempts|
  {
    var f := st.flights[t];
    var fits := Fits(st.total, f.tracking, cfg.capacity);
    if fits && attempts != [] && attempts[0] {
      TryWorks(cfg, st, t, ptr);
    } else if |attempts| <= 1 {
      LastTry(cfg, st, t, attempts, ptr, peak);
    } else {
      var peak' := if fits then Max(peak, st.total + f.tracking) else peak;
      TriesEnd(cfg, Fly(st, t, f.(tried := true)), t, attempts[1..], ptr, peak');
      OneMoreTry(cfg, st, t, attempts, ptr, peak, peak');
    }
  }

  /** Tries that work come to one charge and one delivery, however many fail first. */
  lemma TriesWork<A>(cfg: L.Config, st: Shared<A>, t: Id, attempts: seq<bool>, ptr: Id)
    requires t in st.flights && st.flights[t].Tracked? && ptr !in st.buffers && st.total >= 0 && st.flights[t].tracking >= 0
    requires L.TryAllocate(cfg, st.total, 0, st.flights[t].tracking, attempts).0
    ensures Tries(cfg, st, t, attempts, ptr) == Deliver(Charge(cfg, st, t), t, ptr)
  {
    TriesEnd(cfg, st, t, attempts, ptr, 0);
    TryWorks(cfg, st, t, ptr);
  }

  // ----- among other threads -----

  /** What a thread can see: the shared state and its own flight. */
  function Mine<A>(st: Shared<A>, t: Id): Shared<A> {
    st.(flights := map u | u in st.flights && u == t :: st.flights[u])
  }

  /** The arena a step changes the size of, or destroys. */
  function Resizes<A(==)>(st: Shared<A>, step: Step<A>): Option<A> {
    match step
    case DoApplyGrow(t) => if t in st.flights then ArenaIn(st.flights[t]) else None
    case DoShrink(_, arena) => Some(arena)
    case DoDestroy(_, arena) => Some(arena)
    case DoReset(_, stream) => ArenaOf(st, stream)
    case _ => None
  }

  /** No other thread is inside an operation on that arena. */
  predicate Undisturbed<A(==)>(st: Shared<A>, step: Step<A>) {
    forall u :: u in st.flights && u != step.thread && ArenaIn(st.flights[u]).Some? ==>
      Resizes(st, step) != ArenaIn(st.flights[u])
  }

  /** Flying and landing commute with looking away from the others. */
  lemma MineFlies<A>(st: Shared<A>, t: Id)
    ensures forall f :: Mine(Fly(st, t, f), t) == Fly(Mine(st, t), t, f)
    ensures Mine(Land(st, t), t) == Land(Mine(st, t), t)
    ensures Mine(st, t).flights.Keys == st.flights.Keys * {t}
  {
    forall f
      ensures Mine(Fly(st, t, f), t) == Fly(Mine(st, t), t, f)
    {
      assert Mine(Fly(st, t, f), t).flights == Fly(Mine(st, t), t, f).flights;
    }
    assert Mine(Land(st, t), t).flights == Land(Mine(st, t), t).flights;
  }

  lemma TrackUnseen<A>(st: Shared<A>, t: Id, bytes: nat, stream: Id)
    ensures Mine(Track(st, t, bytes, stream), t) == Track(Mine(st, t), t, bytes, stream)
  {
    MineFlies(st, t);
    MineFlies(AddUsed(st, ArenaOf(st, stream), L.Padded(bytes)), t);
  }

  lemma FreeUnseen<A>(st: Shared<A>, t: Id, ptr: Id, stream: Id)
    ensures Mine(Free(st, t, ptr, stream), t) == Free(Mine(st, t), t, ptr, stream)
  {
    MineFlies(st, t);
    if ptr in st.buffers {
      var bytes: int := st.buffers[ptr];
      MineFlies(AddUsed(st, ArenaOf(st, stream), 0 - bytes).(buffers := st.buffers - {ptr}), t);
    }
  }

  lemma ChargeUnseen<A>(cfg: L.Config, st: Shared<A>, t: Id)
    ensures Mine(Charge(cfg, st, t), t) == Charge(cfg, Mine(st, t), t)
  {
    MineFlies(st, t);
    if t in st.flights && st.flights[t].Tracked? { MineFlies(st.(total := st.total + st.flights[t].tracking), t); }
  }

  lemma RefundUnseen<A>(st: Shared<A>, t: Id)
    ensures Mine(Refund(st, t), t) == Refund(Mine(st, t), t)
  {
    MineFlies(st, t);
    if t in st.flights && st.flights[t].Charged? { MineFlies(st.(total := SubWord(st.total, st.flights[t].tracking)), t); }
  }

  lemma DeliverUnseen<A>(st: Shared<A>, t: Id, ptr: Id)
    ensures Mine(Deliver(st, t, ptr), t) == Deliver(Mine(st, t), t, ptr)
  {
    MineFlies(st, t);
    if t in st.flights && st.flights[t].Charged? {
      MineFlies(st.(buffers := st.buffers[ptr := st.flights[t].bytes]), t);
    }
  }

  lemma GiveUpUnseen<A>(st: Shared<A>, t: Id)
    ensures Mine(GiveUp(st, t), t) == GiveUp(Mine(st, t), t)
  {
    MineFlies(st, t);
    if t in st.flights && st.flights[t].Tracked? { MineFlies(AddUsed(st, st.flights[t].from, 0 - st.flights[t].bytes), t); }
  }

  lemma BuffersUnseen<A>(cfg: L.Config, st: Shared<A>, step: Step<A>)
    requires step.DoTrack? || step.DoCharge? || step.DoDeliver? || step.DoRefund? || step.DoGiveUp? || step.DoFree?
    ensures Mine(Next(cfg, st, step), step.thread) == Next(cfg, Mine(st, step.thread), step)
  {
    match step
    case DoTrack(t, bytes, stream) => TrackUnseen(st, t, bytes, stream);
    case DoCharge(t) => ChargeUnseen(cfg, st, t);
    case DoDeliver(t, ptr) => DeliverUnseen(st, t, ptr);
    case DoRefund(t) => RefundUnseen(st, t);
    case DoGiveUp(t) => GiveUpUnseen(st, t);
    case DoFree(t, ptr, stream) => FreeUnseen(st, t, ptr, stream);
  }

  lemma ReturnsUnseen<A>(cfg: L.Config, st: Shared<A>, step: Step<A>)
    requires step.DoOpen? || step.DoAttach? || step.DoDeallocate? || step.DoReturn?
    ensures Mine(Next(cfg, st, step), step.thread) == Next(cfg, Mine(st, step.thread), step)
  {
  }

  lemma ReservesUnseen<A>(cfg: L.Config, st: Shared<A>, step: Step<A>)
    requires step.DoChargeReserve? || step.DoChargeReserveUpTo? || step.DoChargeGrow?
    ensures Mine(Next(cfg, st, step), step.thread) == Next(cfg, Mine(st, step.thread), step)
  {
  }

  lemma ApplyGrowUnseen<A>(cfg: L.Config, st: Shared<A>, step: Step<A>)
    requires Undisturbed(st, step) && step.DoApplyGrow?
    ensures Mine(ApplyGrow(st, step.thread), step.thread) == ApplyGrow(Mine(st, step.thread), step.thread)
  {
  }

  lemma ShrinkUnseen<A>(cfg: L.Config, st: Shared<A>, step: Step<A>)
    requires Undisturbed(st, step) && step.DoShrink?
    ensures Mine(Shrink(st, step.thread, step.arena), step.thread) == Shrink(Mine(st, step.thread), step.thread, step.arena)
  {
  }

  lemma DestroyUnseen<A>(cfg: L.Config, st: Shared<A>, step: Step<A>)
    requires Undisturbed(st, step) && step.DoDestroy?
    ensures Mine(Destroy(st, step.thread, step.arena), step.thread) == Destroy(Mine(st, step.thread), step.thread, step.arena)
  {
  }

  lemma ResetUnseen<A>(cfg: L.Config, st: Shared<A>, step: Step<A>)
    requires Undisturbed(st, step) && step.DoReset?
    ensures Mine(Reset(st, step.thread, step.stream), step.thread) == Reset(Mine(st, step.thread), step.thread, step.stream)
  {
  }

  /** A step does with what its thread can see exactly what it would do if no other thread were in
      an operation, as long as nobody else is inside an operation on an arena it resizes. */
  lemma OthersUnseen<A>(cfg: L.Config, st: Shared<A>, step: Step<A>)
    requires Undisturbed(st, step)
    ensures Mine(Next(cfg, st, step), step.thread) == Next(cfg, Mine(st, step.thread), step)
  {
    match step
    case DoApplyGrow(_) => ApplyGrowUnseen(cfg, st, step);
    case DoShrink(_, _) => ShrinkUnseen(cfg, st, step);
    case DoDestroy(_, _) => DestroyUnseen(cfg, st, step);
    case DoReset(_, _) => ResetUnseen(cfg, st, step);
    case DoChargeReserve(_, _) => ReservesUnseen(cfg, st, step);
    case DoChargeReserveUpTo(_, _, _) => ReservesUnseen(cfg, st, step);
    case DoChargeGrow(_, _, _) => ReservesUnseen(cfg, st, step);
    case DoOpen(_, _) => ReturnsUnseen(cfg, st, step);
    case DoAttach(_, _, _, _) => ReturnsUnseen(cfg, st, step);
    case DoDeallocate(_) => ReturnsUnseen(cfg, st, step);
    case DoReturn(_) => ReturnsUnseen(cfg, st, step);
    case _ => BuffersUnseen(cfg, st, step);
  }

  // ----- every operation -----

  lemma LandsHome<A>(st: Shared<A>, t: Id, f: Flight<A>)
    requires st.flights == map[]
    ensures Land(Fly(st, t, f), t) == st && st.flights[t := f] - {t} == map[]
  {
    assert st.flights[t := f] - {t} == map[];
  }

  /** Streams of a ledger state have arenas. */
  predicate Sane<A(==)>(g: L.GpuState<A>) {
    g.total >= 0 && forall s :: s in g.streams ==> g.streams[s].arena in g.arenas
  }

  lemma AloneReserves<A>(cfg: L.Config, g: L.GpuState<A>, t: Id, bytes: nat, arena: A)
    ensures Alone(cfg, Lift(g), t, L.OpReserve(bytes, arena)) == Lift(L.Reserve(cfg, g, bytes, arena))
  {
    LandsHome(Lift(g), t, Reserving(bytes));
  }

  lemma AloneReservesUpTo<A>(cfg: L.Config, g: L.GpuState<A>, t: Id, bytes: nat, asked: nat, arena: A)
    ensures Alone(cfg, Lift(g), t, L.OpReserveUpTo(bytes, asked, arena)) == Lift(L.ReserveUpTo(cfg, g, bytes, asked, arena))
  {
    LandsHome(Lift(g), t, Reserving(Min(asked, Granted(g.total, bytes, cfg.limit))));
  }

  lemma AloneGrows<A>(cfg: L.Config, g: L.GpuState<A>, t: Id, arena: A, bytes: nat)
    ensures Alone(cfg, Lift(g), t, L.OpGrow(arena, bytes)) == Lift(L.Grow(cfg, g, arena, bytes))
  {
    LandsHome(Lift(g), t, Growing(arena, bytes));
  }

  lemma AloneShrinks<A>(cfg: L.Config, g: L.GpuState<A>, t: Id, arena: A)
    ensures Alone(cfg, Lift(g), t, L.OpShrink(arena)) == Lift(L.Shrink(g, arena))
  {
    var st1 := Shrink(Lift(g), t, arena);
    if t in st1.flights { LandsHome(Lift(g), t, st1.flights[t]); }
  }

  lemma AloneDestroys<A>(cfg: L.Config, g: L.GpuState<A>, t: Id, arena: A)
    ensures Return(Destroy(Lift(g), t, arena), t) == Lift(L.Destroy(g, arena))
  {
    assert Attached(Lift(g), arena) <==> L.Attached(g, arena);
    var st1 := Destroy(Lift(g), t, arena);
    if t in st1.flights { LandsHome(Lift(g), t, st1.flights[t]); }
  }

  lemma AloneAttaches<A>(cfg: L.Config, g: L.GpuState<A>, t: Id, stream: Id, arena: A, policy: L.Policy)
    ensures Alone(cfg, Lift(g), t, L.OpAttach(stream, arena, policy)) == Lift(L.Attach(g, stream, arena, policy))
  {
    assert Attached(Lift(g), arena) <==> L.Attached(g, arena);
    AloneDestroys(cfg, g, t, arena);
  }

  lemma AloneResets<A>(cfg: L.Config, g: L.GpuState<A>, t: Id, stream: Id)
    requires Sane(g)
    ensures Alone(cfg, Lift(g), t, L.OpReset(stream)) == Lift(L.Reset(g, stream))
  {
    var st1 := Reset(Lift(g), t, stream);
    if t in st1.flights { LandsHome(Lift(g), t, st1.flights[t]); }
  }

  lemma AloneFrees<A>(cfg: L.Config, g: L.GpuState<A>, t: Id, ptr: Id, stream: Id)
    ensures Alone(cfg, Lift(g), t, L.OpFree(ptr, stream)) == Lift(L.Free(g, ptr, stream))
  {
    var st1 := Free(Lift(g), t, ptr, stream);
    if t in st1.flights {
      LandsHome(Lift(g), t, st1.flights[t]);
      assert st1.flights[t := Returning(st1.flights[t].credit)] - {t} == map[];
    }
  }

  /** Taking the bytes off the stream counter again undoes putting them there. */
  lemma UsedUndone<A>(st: Shared<A>, arena: Option<A>, bytes: nat)
    ensures AddUsed(AddUsed(st, arena, bytes), arena, 0 - bytes) == st
  {
    if arena.Some? && arena.value in st.arenas {
      assert AddUsed(AddUsed(st, arena, bytes), arena, 0 - bytes).arenas == st.arenas;
    }
  }

  /** What an allocation, its tries included, comes to. */
  lemma TrackedTries<A>(cfg: L.Config, st: Shared<A>, t: Id, bytes: nat, stream: Id, attempts: seq<bool>, ptr: Id, peak: int)
    requires st.flights == map[] && st.total >= 0 && ptr !in st.buffers && t in Track(st, t, bytes, stream).flights
    ensures var tracked, arena, p := Track(st, t, bytes, stream), ArenaOf(st, stream), L.Padded(bytes);
            var (ok, total, _) := L.TryAllocate(cfg, st.total, peak, tracked.flights[t].tracking, attempts);
            Tries(cfg, tracked, t, attempts, ptr)
            == if ok then AddUsed(st, arena, p).(total := total, buffers := st.buffers[ptr := p]) else st
  {
    var tracked := Track(st, t, bytes, stream);
    TriesEnd(cfg, tracked, t, attempts, ptr, peak);
    LandsHome(st, t, tracked.flights[t]);
    UsedUndone(st, ArenaOf(st, stream), L.Padded(bytes));
  }

  /** A failed allocation of a thread left alone, with all its charges and refunds, ends exactly
      where it began. */
  lemma AloneFailureUndone<A>(cfg: L.Config, st: Shared<A>, t: Id, bytes: nat, stream: Id, attempts: seq<bool>, ptr: Id)
    requires st.flights == map[] && st.total >= 0
    requires Alone(cfg, st, t, L.OpAllocate(bytes, stream, attempts, ptr)).buffers == st.buffers
    ensures Alone(cfg, st, t, L.OpAllocate(bytes, stream, attempts, ptr)) == st
  {
    if ptr !in st.buffers && t in Track(st, t, bytes, stream).flights {
      TrackedTries(cfg, st, t, bytes, stream, attempts, ptr, 0);
    }
  }

  lemma AloneAllocatesTracked<A>(cfg: L.Config, g: L.GpuState<A>, t: Id, bytes: nat, stream: Id, attempts: seq<bool>, ptr: Id)
    requires Sane(g) && stream in g.streams && ptr !in g.buffers
    ensures Alone(cfg, Lift(g), t, L.OpAllocate(bytes, stream, attempts, ptr))
            == Lift(L.Allocate(cfg, g, bytes, stream, attempts, ptr).0)
  {
    var st := Lift(g);
    assert ArenaOf(st, stream) == Some(g.streams[stream].arena);
    if t in Track(st, t, bytes, stream).flights {
      TrackedTries(cfg, st, t, bytes, stream, attempts, ptr, g.peak);
    }
  }

  lemma AloneAllocates<A>(cfg: L.Config, g: L.GpuState<A>, t: Id, bytes: nat, stream: Id, attempts: seq<bool>, ptr: Id)
    requires Sane(g)
    ensures Alone(cfg, Lift(g), t, L.OpAllocate(bytes, stream, attempts, ptr))
            == Lift(L.Allocate(cfg, g, bytes, stream, attempts, ptr).0)
  {
    if ptr !in g.buffers {
      if stream in g.streams {
        AloneAllocatesTracked(cfg, g, t, bytes, stream, attempts, ptr);
      } else {
        TrackedTries(cfg, Lift(g), t, bytes, stream, attempts, ptr, g.peak);
      }
    }
  }

  /** A thread left alone with an operation takes the steps to exactly where the ledger says. */
  lemma AloneIsLedger<A>(cfg: L.Config, g: L.GpuState<A>, t: Id, op: L.Op<A>)
    requires Sane(g)
    ensures Alone(cfg, Lift(g), t, op) == Lift(L.Next(cfg, g, op))
  {
    match op
    case OpReserve(bytes, arena) => AloneReserves(cfg, g, t, bytes, arena);
    case OpReserveUpTo(bytes, asked, arena) => AloneReservesUpTo(cfg, g, t, bytes, asked, arena);
    case OpGrow(arena, bytes) => AloneGrows(cfg, g, t, arena, bytes);
    case OpShrink(arena) => AloneShrinks(cfg, g, t, arena);
    case OpAttach(stream, arena, policy) => AloneAttaches(cfg, g, t, stream, arena, policy);
    case OpReset(stream) => AloneResets(cfg, g, t, stream);
    case OpDestroy(arena) => AloneDestroys(cfg, g, t, arena);
    case OpAllocate(bytes, stream, attempts, ptr) => AloneAllocates(cfg, g, t, bytes, stream, attempts, ptr);
    case OpFree(ptr, stream) => AloneFrees(cfg, g, t, ptr, stream);
  }
}
