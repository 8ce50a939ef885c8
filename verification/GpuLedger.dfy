/** The counters of `reservation_aware_resource_adaptor` with per-stream tracking, one public
    operation at a time, and exactly how far they are from the truth.

    Arenas carry a signed counter: a buffer allocated on one stream may be freed on another, so a
    stream may have freed more than it allocated. Policies are ignore and fail. */
module GpuLedger {
  import opened Prelude
  import opened AtomicCounters

  type Stream = nat
  type Ptr = nat

  const ALIGNMENT: nat := 256

  datatype Config = Config(limit: nat, capacity: nat)
  {
    predicate Valid() {
      limit < WORD && capacity < WORD
    }
  }

  datatype Policy = Ignore | Fail

  /** An arena's `_size` and its `allocated_bytes`. */
  datatype Arena = Arena(size: int, used: int)

  datatype Tracker<A> = Tracker(arena: A, policy: Policy)

  datatype GpuState<A> = GpuState(
    total: int,                       // _total_allocated_bytes
    peak: int,                        // _peak_total_allocated_bytes
    reserved: int,                    // _total_reserved_bytes
    arenas: map<A, Arena>,            // every arena not destroyed yet
    issued: set<A>,
    streams: map<Stream, Tracker<A>>, // the per-stream tracker states
    buffers: map<Ptr, nat>)           // live device buffers, with their padded sizes

  function InitialState<A>(): GpuState<A> {
    GpuState(0, 0, 0, map[], {}, map[], map[])
  }

  // ----- the amounts the code computes -----

  /** `check_reservation_and_handle_overflow`: how much of `bytes` the reservation does not cover. */
  function OverflowCharge(bytes: nat, size: int, pre: int): int {
    var post := pre + bytes;
    if post < size then 0
    else if pre < size then post - size
    else bytes
  }

  /** `do_deallocate`: how much freeing `bytes` gives back to the total. */
  function FreeCredit(bytes: nat, size: int, pre: int): int {
    var post := pre - bytes;
    if pre <= size then 0
    else if post < size then size - post
    else bytes
  }

  /** Part of the freed bytes lay beyond the reservation and part inside. */
  predicate Straddles(bytes: nat, size: int, pre: int) {
    pre - bytes < size < pre
  }

  function Padded(bytes: nat): nat {
    AlignUp(bytes, ALIGNMENT)
  }

  // ----- what is summed in the accounting -----

  ghost function Footprint(): Arena -> int {
    (a: Arena) => Max(a.size, a.used)
  }

  ghost function Used(): Arena -> int {
    (a: Arena) => a.used
  }

  ghost function Size(): Arena -> int {
    (a: Arena) => a.size
  }

  ghost function Amount(): nat -> int {
    (n: nat) => n
  }

  // ----- operations -----

  function Reserve<A(==)>(cfg: Config, st: GpuState<A>, bytes: nat, arena: A): GpuState<A> {
    if arena !in st.issued && Fits(st.total, bytes, cfg.limit) then
      st.(total := st.total + bytes, peak := Max(st.peak, st.total + bytes),
          reserved := st.reserved + bytes,
          arenas := st.arenas[arena := Arena(bytes, 0)], issued := st.issued + {arena})
    else st
  }

  /** `asked` is what the retries of `add_bounded` have cut the request down to at its commit;
      undisturbed it is the request. */
  function ReserveUpTo<A(==)>(cfg: Config, st: GpuState<A>, bytes: nat, asked: nat, arena: A): GpuState<A> {
    var b := Min(asked, Granted(st.total, bytes, cfg.limit));
    if arena !in st.issued then
      st.(total := st.total + b,
          peak := if st.total + b > 0 then Max(st.peak, st.total + b) else st.peak,
          reserved := if st.total + b > 0 then st.reserved + b else st.reserved,
          arenas := st.arenas[arena := Arena(b, 0)], issued := st.issued + {arena})
    else st
  }

  function Grow<A(==)>(cfg: Config, st: GpuState<A>, arena: A, bytes: nat): GpuState<A> {
    if arena in st.arenas && Fits(st.total, bytes, cfg.limit) then
      st.(total := st.total + bytes, peak := Max(st.peak, st.total + bytes), reserved := st.reserved + bytes,
          arenas := st.arenas[arena := st.arenas[arena].(size := st.arenas[arena].size + bytes)])
    else st
  }

  function Shrink<A(==)>(st: GpuState<A>, arena: A): GpuState<A> {
    if arena in st.arenas && Max(0, st.arenas[arena].used) < st.arenas[arena].size then
      var current := Max(0, st.arenas[arena].used);
      st.(total := SubWord(st.total, st.arenas[arena].size - current),
          arenas := st.arenas[arena := st.arenas[arena].(size := current)])
    else st
  }

  /** The arena's destructor, `do_release_reservation`. */
  function Release<A(==)>(st: GpuState<A>, arena: A): GpuState<A> {
    if arena in st.arenas then
      var a := st.arenas[arena];
      st.(total := SubWord(st.total, if a.size > a.used then a.size - Max(0, a.used) else 0),
          reserved := SubWord(st.reserved, Max(0, a.size)),
          arenas := st.arenas - {arena})
    else st
  }

  predicate Attached<A(==)>(st: GpuState<A>, arena: A) {
    exists s :: s in st.streams && st.streams[s].arena == arena
  }

  /** `attach_reservation_to_tracker`. On a stream that has a tracker it returns false, and the
      reservation, which it was given to own, is destroyed on the way out. */
  function Attach<A(==)>(st: GpuState<A>, stream: Stream, arena: A, policy: Policy): GpuState<A> {
    if arena in st.arenas && !Attached(st, arena) then
      if stream in st.streams then Release(st, arena)
      else st.(streams := st.streams[stream := Tracker(arena, policy)])
    else st
  }

  /** `reset_stream_reservation`: the tracker state goes, and its arena with it. */
  function Reset<A(==)>(st: GpuState<A>, stream: Stream): GpuState<A> {
    if stream in st.streams then
      Release(st, st.streams[stream].arena).(streams := st.streams - {stream})
    else st
  }

  /** Destroying a reservation that was never attached. */
  function Destroy<A(==)>(st: GpuState<A>, arena: A): GpuState<A> {
    if Attached(st, arena) then st else Release(st, arena)
  }

  /** `do_allocate_unmanaged`, tried once and then as often as the out-of-memory policy retries it.
      `attempts` says for each try whether the upstream resource would deliver; after the last the
      policy throws. There is always a first try, with an empty list one that would not be
      delivered. A try that fails leaves the total as it was, not the peak. */
  function TryAllocate(cfg: Config, total: int, peak: int, tracking: int, attempts: seq<bool>): (r: (bool, int, int))
    ensures !r.0 ==> r.1 == total && r.2 >= peak
    ensures r.0 ==> r.1 == total + tracking <= cfg.capacity
    decreases |attempts|
  {
    var fits := Fits(total, tracking, cfg.capacity);
    if fits && attempts != [] && attempts[0] then (true, total + tracking, Max(peak, total + tracking))
    else
      var peak' := if fits then Max(peak, total + tracking) else peak;
      if |attempts| <= 1 then (false, total, peak') else TryAllocate(cfg, total, peak', tracking, attempts[1..])
  }

  /** `do_allocate` of `bytes` on `stream`; `ptr` is the address the upstream resource delivers. */
  function Allocate<A(==)>(cfg: Config, st: GpuState<A>, bytes: nat, stream: Stream, attempts: seq<bool>, ptr: Ptr): (GpuState<A>, bool) {
    var padded := Padded(bytes);
    if ptr in st.buffers then (st, false)
    else if stream !in st.streams then
      var (ok, total, peak) := TryAllocate(cfg, st.total, st.peak, padded, attempts);
      (st.(total := total, peak := peak, buffers := if ok then st.buffers[ptr := padded] else st.buffers), ok)
    else
      var arena := st.streams[stream].arena;
      if arena !in st.arenas then (st, false)
      else
        var a := st.arenas[arena];
        if !Fits(a.used, padded, a.size) && st.streams[stream].policy.Fail? then (st, false)
        else
          var (ok, total, peak) := TryAllocate(cfg, st.total, st.peak, OverflowCharge(padded, a.size, a.used), attempts);
          if ok then
            (st.(total := total, peak := peak, buffers := st.buffers[ptr := padded],
                 arenas := st.arenas[arena := a.(used := a.used + padded)]), true)
          else (st.(total := total, peak := peak), false)
  }

  /** `do_deallocate`, on whatever stream the caller names. */
  function Free<A(==)>(st: GpuState<A>, ptr: Ptr, stream: Stream): GpuState<A> {
    if ptr !in st.buffers then st
    else
      var bytes := st.buffers[ptr];
      var st1 := st.(buffers := st.buffers - {ptr});
      if stream in st.streams && st.streams[stream].arena in st.arenas then
        var arena := st.streams[stream].arena;
        var a := st.arenas[arena];
        st1.(total := SubWord(st.total, FreeCredit(bytes, a.size, a.used)),
             arenas := st.arenas[arena := a.(used := a.used - bytes)])
      else st1.(total := SubWord(st.total, bytes))
  }

  datatype Op<A> =
    | OpReserve(bytes: nat, arena: A)
    | OpReserveUpTo(bytes: nat, asked: nat, arena: A)
    | OpGrow(arena: A, bytes: nat)
    | OpShrink(arena: A)
    | OpAttach(stream: Stream, arena: A, policy: Policy)
    | OpReset(stream: Stream)
    | OpDestroy(arena: A)
    | OpAllocate(bytes: nat, stream: Stream, attempts: seq<bool>, ptr: Ptr)
    | OpFree(ptr: Ptr, stream: Stream)

  function Next<A(==)>(cfg: Config, st: GpuState<A>, op: Op<A>): GpuState<A> {
    match op
    case OpReserve(bytes, arena) => Reserve(cfg, st, bytes, arena)
    case OpReserveUpTo(bytes, asked, arena) => ReserveUpTo(cfg, st, bytes, asked, arena)
    case OpGrow(arena, bytes) => Grow(cfg, st, arena, bytes)
    case OpShrink(arena) => Shrink(st, arena)
    case OpAttach(stream, arena, policy) => Attach(st, stream, arena, policy)
    case OpReset(stream) => Reset(st, stream)
    case OpDestroy(arena) => Destroy(st, arena)
    case OpAllocate(bytes, stream, attempts, ptr) => Allocate(cfg, st, bytes, stream, attempts, ptr).0
    case OpFree(ptr, stream) => Free(st, ptr, stream)
  }

  function Exec<A(==)>(cfg: Config, st: GpuState<A>, ops: seq<Op<A>>): GpuState<A> {
    if ops == [] then st else Next(cfg, Exec(cfg, st, ops[..|ops| - 1]), ops[|ops| - 1])
  }
}
