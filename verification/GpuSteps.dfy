/** The device adaptor under any number of threads, one atomic access per step.

    An allocation raises its stream's counter, then charges the total, then asks the upstream
    resource, and undoes the first two in reverse order when that fails; a free lowers the stream's
    counter, gives the memory back upstream, and then lowers the total. Other threads may run
    between any two of these. What a thread has done but not finished is its flight. An arena's
    size is a plain field, so changing it, or destroying the arena, while another thread is inside
    an operation on the arena is a data race; such steps do not happen. */
module GpuSteps {
  import opened Prelude
  import opened AtomicCounters
  import L = GpuLedger

  type Id = nat

  datatype Flight<A> =
    | Reserving(amount: nat)                                      // charged, arena not made yet
    | Growing(arena: A, amount: nat)                              // charged, size not raised yet
    | Tracked(from: Option<A>, bytes: nat, tracking: int, tried: bool)  // on the stream counter, total not charged
    | Charged(from: Option<A>, bytes: nat, tracking: int)         // total charged, waiting for upstream
    | Freeing(bytes: nat, credit: int)                            // off the stream counter, still held upstream
    | Returning(credit: int)                                      // still to be subtracted from the total

  datatype Shared<A> = Shared(
    total: int,
    arenas: map<A, L.Arena>,
    issued: set<A>,
    streams: map<Id, L.Tracker<A>>,
    buffers: map<Id, nat>,
    flights: map<Id, Flight<A>>)

  function Start<A>(): Shared<A> {
    Shared(0, map[], {}, map[], map[], map[])
  }

  // ----- helpers -----

  function Fly<A>(st: Shared<A>, t: Id, f: Flight<A>): Shared<A> {
    st.(flights := st.flights[t := f])
  }

  function Land<A>(st: Shared<A>, t: Id): Shared<A> {
    st.(flights := st.flights - {t})
  }

  /** The arena a flight is inside an operation on. */
  function ArenaIn<A>(f: Flight<A>): Option<A> {
    match f
    case Growing(a, _) => Some(a)
    case Tracked(from, _, _, _) => from
    case Charged(from, _, _) => from
    case _ => None
  }

  /** Nobody but `t` is inside an operation on the arena. */
  predicate OwnedBy<A(==)>(st: Shared<A>, arena: A, t: Id) {
    arena in st.arenas && forall u :: u in st.flights && u != t ==> ArenaIn(st.flights[u]) != Some(arena)
  }

  predicate Attached<A(==)>(st: Shared<A>, arena: A) {
    exists s :: s in st.streams && st.streams[s].arena == arena
  }

  /** The arena tracking a stream. */
  function ArenaOf<A(==)>(st: Shared<A>, stream: Id): Option<A> {
    if stream in st.streams && st.streams[stream].arena in st.arenas then Some(st.streams[stream].arena) else None
  }

  function AddUsed<A(==)>(st: Shared<A>, arena: Option<A>, bytes: int): Shared<A> {
    if arena.Some? && arena.value in st.arenas then
      st.(arenas := st.arenas[arena.value := st.arenas[arena.value].(used := st.arenas[arena.value].used + bytes)])
    else st
  }

  // ----- reservations -----

  function ChargeReserve<A(==)>(cfg: L.Config, st: Shared<A>, t: Id, bytes: nat): Shared<A> {
    if t !in st.flights && Fits(st.total, bytes, cfg.limit) then
      Fly(st.(total := st.total + bytes), t, Reserving(bytes))
    else st
  }

  function ChargeReserveUpTo<A(==)>(cfg: L.Config, st: Shared<A>, t: Id, bytes: nat, asked: nat): Shared<A> {
    var b := Min(asked, Granted(st.total, bytes, cfg.limit));
    if t !in st.flights then Fly(st.(total := st.total + b), t, Reserving(b)) else st
  }

  function Open<A(==)>(st: Shared<A>, t: Id, arena: A): Shared<A> {
    if t in st.flights && st.flights[t].Reserving? && arena !in st.issued then
      Land(st.(arenas := st.arenas[arena := L.Arena(st.flights[t].amount, 0)], issued := st.issued + {arena}), t)
    else st
  }

  function ChargeGrow<A(==)>(cfg: L.Config, st: Shared<A>, t: Id, arena: A, bytes: nat): Shared<A> {
    if t !in st.flights && arena in st.arenas && Fits(st.total, bytes, cfg.limit) then
      Fly(st.(total := st.total + bytes), t, Growing(arena, bytes))
    else st
  }

  function ApplyGrow<A(==)>(st: Shared<A>, t: Id): Shared<A> {
    if t in st.flights && st.flights[t].Growing? && OwnedBy(st, st.flights[t].arena, t) then
      var arena := st.flights[t].arena;
      var a := st.arenas[arena];
      Land(st.(arenas := st.arenas[arena := a.(size := a.size + st.flights[t].amount)]), t)
    else st
  }

  function Shrink<A(==)>(st: Shared<A>, t: Id, arena: A): Shared<A> {
    if t !in st.flights && OwnedBy(st, arena, t) && Max(0, st.arenas[arena].used) < st.arenas[arena].size then
      var a := st.arenas[arena];
      var current := Max(0, a.used);
      Fly(st.(arenas := st.arenas[arena := a.(size := current)]), t, Returning(a.size - current))
    else st
  }

  function ReleaseCredit(a: L.Arena): int {
    if a.size > a.used then a.size - Max(0, a.used) else 0
  }

  /** An arena no stream is attached to is destroyed. */
  function Destroy<A(==)>(st: Shared<A>, t: Id, arena: A): Shared<A> {
    if t !in st.flights && OwnedBy(st, arena, t) && !Attached(st, arena) then
      Fly(st.(arenas := st.arenas - {arena}), t, Returning(ReleaseCredit(st.arenas[arena])))
    else st
  }

  /** The tracker state of a stream goes, and its arena with it. */
  function Reset<A(==)>(st: Shared<A>, t: Id, stream: Id): Shared<A> {
    if t !in st.flights && stream in st.streams && OwnedBy(st, st.streams[stream].arena, t) then
      var arena := st.streams[stream].arena;
      Fly(st.(arenas := st.arenas - {arena}, streams := st.streams - {stream}), t, Returning(ReleaseCredit(st.arenas[arena])))
    else st
  }

  function Attach<A(==)>(st: Shared<A>, stream: Id, arena: A, policy: L.Policy): Shared<A> {
    if arena in st.arenas && !Attached(st, arena) && stream !in st.streams then
      st.(streams := st.streams[stream := L.Tracker(arena, policy)])
    else st
  }

  // ----- allocations -----

  /** `check_reservation_and_handle_overflow`. Under the fail policy a request that does not fit
      throws here. */
  function Track<A(==)>(st: Shared<A>, t: Id, bytes: nat, stream: Id): Shared<A> {
    var p := L.Padded(bytes);
    var arena := ArenaOf(st, stream);
    if t in st.flights then st
    else if arena.None? then Fly(st, t, Tracked(None, p, p, false))
    else
      var a := st.arenas[arena.value];
      if st.streams[stream].policy.Fail? && !Fits(a.used, p, a.size) then st
      else Fly(AddUsed(st, arena, p), t, Tracked(arena, p, L.OverflowCharge(p, a.size, a.used), false))
  }

  /** The capacity check of `do_allocate_unmanaged`, once per try. */
  function Charge<A(==)>(cfg: L.Config, st: Shared<A>, t: Id): Shared<A> {
    if t in st.flights && st.flights[t].Tracked? then
      var f := st.flights[t];
      if Fits(st.total, f.tracking, cfg.capacity) then
        Fly(st.(total := st.total + f.tracking), t, Charged(f.from, f.bytes, f.tracking))
      else Fly(st, t, f.(tried := true))
    else st
  }

  /** The upstream resource delivers. */
  function Deliver<A(==)>(st: Shared<A>, t: Id, ptr: Id): Shared<A> {
    if t in st.flights && st.flights[t].Charged? && ptr !in st.buffers then
      Land(st.(buffers := st.buffers[ptr := st.flights[t].bytes]), t)
    else st
  }

  /** It throws: the charge is taken back, and the out-of-memory policy decides what comes next. */
  function Refund<A(==)>(st: Shared<A>, t: Id): Shared<A> {
    if t in st.flights && st.flights[t].Charged? then
      var f := st.flights[t];
      Fly(st.(total := SubWord(st.total, f.tracking)), t, Tracked(f.from, f.bytes, f.tracking, true))
    else st
  }

  /** The policy throws, which it can only do after a try has failed: the stream counter is taken
      back. */
  function GiveUp<A(==)>(st: Shared<A>, t: Id): Shared<A> {
    if t in st.flights && st.flights[t].Tracked? && st.flights[t].tried then
      Land(AddUsed(st, st.flights[t].from, 0 - st.flights[t].bytes), t)
    else st
  }

  // ----- frees -----

  /** The buffer is taken off the stream counter; it goes back upstream only after that. */
  function Free<A(==)>(st: Shared<A>, t: Id, ptr: Id, stream: Id): Shared<A> {
    if t in st.flights || ptr !in st.buffers then st
    else
      var bytes := st.buffers[ptr];
      var arena := ArenaOf(st, stream);
      var credit := if arena.None? then bytes
                    else L.FreeCredit(bytes, st.arenas[arena.value].size, st.arenas[arena.value].used);
      Fly(AddUsed(st, arena, 0 - bytes).(buffers := st.buffers - {ptr}), t, Freeing(bytes, credit))
  }

  /** The upstream resource takes the memory back. */
  function Deallocate<A(==)>(st: Shared<A>, t: Id): Shared<A> {
    if t in st.flights && st.flights[t].Freeing? then Fly(st, t, Returning(st.flights[t].credit)) else st
  }

  /** The last access of a free, a shrink and an arena's destructor. */
  function Return<A(==)>(st: Shared<A>, t: Id): Shared<A> {
    if t in st.flights && st.flights[t].Returning? then
      Land(st.(total := SubWord(st.total, st.flights[t].credit)), t)
    else st
  }

  // ----- runs -----

  datatype Step<A> =
    | DoChargeReserve(thread: Id, bytes: nat)
    | DoChargeReserveUpTo(thread: Id, bytes: nat, asked: nat)
    | DoOpen(thread: Id, arena: A)
    | DoChargeGrow(thread: Id, arena: A, bytes: nat)
    | DoApplyGrow(thread: Id)
    | DoShrink(thread: Id, arena: A)
    | DoDestroy(thread: Id, arena: A)
    | DoReset(thread: Id, stream: Id)
    | DoAttach(thread: Id, stream: Id, arena: A, policy: L.Policy)
    | DoTrack(thread: Id, bytes: nat, stream: Id)
    | DoCharge(thread: Id)
    | DoDeliver(thread: Id, ptr: Id)
    | DoRefund(thread: Id)
    | DoGiveUp(thread: Id)
    | DoFree(thread: Id, ptr: Id, stream: Id)
    | DoDeallocate(thread: Id)
    | DoReturn(thread: Id)

  function Next<A(==)>(cfg: L.Config, st: Shared<A>, step: Step<A>): Shared<A> {
    match step
    case DoChargeReserve(t, bytes) => ChargeReserve(cfg, st, t, bytes)
    case DoChargeReserveUpTo(t, bytes, asked) => ChargeReserveUpTo(cfg, st, t, bytes, asked)
    case DoOpen(t, arena) => Open(st, t, arena)
    case DoChargeGrow(t, arena, bytes) => ChargeGrow(cfg, st, t, arena, bytes)
    case DoApplyGrow(t) => ApplyGrow(st, t)
    case DoShrink(t, arena) => Shrink(st, t, arena)
    case DoDestroy(t, arena) => Destroy(st, t, arena)
    case DoReset(t, stream) => Reset(st, t, stream)
    case DoAttach(_, stream, arena, policy) => Attach(st, stream, arena, policy)
    case DoTrack(t, bytes, stream) => Track(st, t, bytes, stream)
    case DoCharge(t) => Charge(cfg, st, t)
    case DoDeliver(t, ptr) => Deliver(st, t, ptr)
    case DoRefund(t) => Refund(st, t)
    case DoGiveUp(t) => GiveUp(st, t)
    case DoFree(t, ptr, stream) => Free(st, t, ptr, stream)
    case DoDeallocate(t) => Deallocate(st, t)
    case DoReturn(t) => Return(st, t)
  }

  function Run<A(==)>(cfg: L.Config, st: Shared<A>, steps: seq<Step<A>>): Shared<A> {
    if steps == [] then st else Next(cfg, Run(cfg, st, steps[..|steps| - 1]), steps[|steps| - 1])
  }
}
