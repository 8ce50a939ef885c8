/** `reservation_aware_resource_adaptor` as an object, each method proved to take `View()` where
    the operation of GpuLedger says. */
module GpuAdaptor {
  import opened Prelude
  import opened AtomicCounters
  import opened GpuLedger

  /** `device_reserved_arena`. */
  class DeviceReservedArena {
    var size: int
    var used: int

    constructor (bytes: int)
      ensures size == bytes && used == 0
    {
      size, used := bytes, 0;
    }
  }

  class ReservationAwareResourceAdaptor {
    const cfg: Config
    const totalAllocatedBytes: AtomicBoundedCounter
    const peakTotalAllocatedBytes: AtomicPeakTracker
    var totalReservedBytes: int
    var streams: map<Stream, Tracker<DeviceReservedArena>>

    // History: the arenas not destroyed yet, all arenas ever made, and the buffers handed out.
    ghost var arenas: set<DeviceReservedArena>
    ghost var issued: set<DeviceReservedArena>
    ghost var buffers: map<Ptr, nat>

    ghost function View(): GpuState<DeviceReservedArena>
      reads this, totalAllocatedBytes, peakTotalAllocatedBytes, arenas
    {
      GpuState(totalAllocatedBytes.value, peakTotalAllocatedBytes.peak, totalReservedBytes,
               map a | a in arenas :: Arena(a.size, a.used), issued, streams, buffers)
    }

    ghost predicate Ready()
      reads this, totalAllocatedBytes, arenas
    {
      && cfg.Valid()
      && totalAllocatedBytes.value >= 0
      && arenas <= issued
      && (forall a :: a in arenas ==> a.size >= 0)
      && (forall s :: s in streams ==> streams[s].arena in arenas)
      && (forall s, t :: s in streams && t in streams && streams[s].arena == streams[t].arena ==> s == t)
    }

    constructor (memoryLimit: nat, capacity: nat)
      requires memoryLimit < WORD && capacity < WORD
      ensures cfg == Config(memoryLimit, capacity)
      ensures Ready() && View() == InitialState()
      ensures fresh(totalAllocatedBytes) && fresh(peakTotalAllocatedBytes)
    {
      cfg := Config(memoryLimit, capacity);
      totalAllocatedBytes := new AtomicBoundedCounter(0);
      peakTotalAllocatedBytes := new AtomicPeakTracker();
      totalReservedBytes, streams := 0, map[];
      arenas, issued, buffers := {}, {}, map[];
    }

    /** `do_reserve`. */
    method DoReserve(bytes: nat) returns (ok: bool)
      modifies this`totalReservedBytes, totalAllocatedBytes, peakTotalAllocatedBytes
      ensures ok == Fits(old(totalAllocatedBytes.value), bytes, cfg.limit)
      ensures !ok ==> View() == old(View())
      ensures ok ==> View() == old(View()).(total := old(View()).total + bytes,
                                            peak := Max(old(View()).peak, old(View()).total + bytes),
                                            reserved := old(View()).reserved + bytes)
    {
      var post: int;
      ghost var at;
      ok, post, at := totalAllocatedBytes.TryAdd(bytes, cfg.limit);
      if ok {
        peakTotalAllocatedBytes.UpdatePeak(post);
        totalReservedBytes := totalReservedBytes + bytes;
      }
    }

    method Reserve(bytes: nat) returns (arena: DeviceReservedArena?)
      requires Ready()
      modifies this`totalReservedBytes, this`arenas, this`issued, totalAllocatedBytes, peakTotalAllocatedBytes
      ensures Ready()
      ensures arena == null <==> !Fits(old(View()).total, bytes, cfg.limit)
      ensures arena == null ==> View() == old(View())
      ensures arena != null ==> fresh(arena) && View() == GpuLedger.Reserve(cfg, old(View()), bytes, arena)
      ensures arena != null ==> arenas == old(arenas) + {arena} && arena.size == bytes
    {
      ghost var st := View();
      var ok := DoReserve(bytes);
      if !ok {
        return null;
      }
      var a := new DeviceReservedArena(bytes);
      arenas, issued := arenas + {a}, issued + {a};
      assert View() == GpuLedger.Reserve(cfg, st, bytes, a);
      return a;
    }

    /** `do_reserve_upto`. */
    method DoReserveUpTo(bytes: nat) returns (given: nat)
      modifies this`totalReservedBytes, totalAllocatedBytes, peakTotalAllocatedBytes
      ensures given == Granted(old(totalAllocatedBytes.value), bytes, cfg.limit)
      ensures var st := old(View());
              View() == st.(total := st.total + given,
                            peak := if st.total + given > 0 then Max(st.peak, st.total + given) else st.peak,
                            reserved := if st.total + given > 0 then st.reserved + given else st.reserved)
    {
      var post: int;
      ghost var at;
      given, post, at := totalAllocatedBytes.AddBounded(bytes, cfg.limit);
      if post > 0 {
        peakTotalAllocatedBytes.UpdatePeak(post);
        totalReservedBytes := totalReservedBytes + given;
      }
    }

    method ReserveUpTo(bytes: nat) returns (arena: DeviceReservedArena)
      requires Ready()
      modifies this`totalReservedBytes, this`arenas, this`issued, totalAllocatedBytes, peakTotalAllocatedBytes
      ensures Ready() && fresh(arena)
      ensures View() == GpuLedger.ReserveUpTo(cfg, old(View()), bytes, bytes, arena)
      ensures arenas == old(arenas) + {arena}
      ensures arena.size == Min(bytes, Max(0, cfg.limit - old(totalAllocatedBytes.value)))
    {
      ghost var st := View();
      var given := DoReserveUpTo(bytes);
      arena := new DeviceReservedArena(given);
      arenas, issued := arenas + {arena}, issued + {arena};
      assert View().arenas == st.arenas[arena := Arena(given, 0)];
    }

    method GrowReservationBy(arena: DeviceReservedArena, bytes: nat) returns (ok: bool)
      requires Ready() && arena in arenas
      modifies this`totalReservedBytes, arena, totalAllocatedBytes, peakTotalAllocatedBytes
      ensures Ready() && ok == Fits(old(View()).total, bytes, cfg.limit)
      ensures View() == Grow(cfg, old(View()), arena, bytes)
      ensures arena.size == old(arena.size) + (if ok then bytes else 0) && arena.used == old(arena.used)
    {
      ghost var st := View();
      ok := DoReserve(bytes);
      if ok {
        arena.size := arena.size + bytes;
      }
      assert View() == Grow(cfg, st, arena, bytes);
    }

    method ShrinkReservationToFit(arena: DeviceReservedArena)
      requires Ready() && arena in arenas
      modifies arena, totalAllocatedBytes
      ensures Ready()
      ensures View() == Shrink(old(View()), arena)
      ensures arena.size == Min(old(arena.size), Max(0, arena.used)) && arena.used == old(arena.used)
    {
      ghost var st := View();
      var current := Max(0, arena.used);
      if current < arena.size {
        var reclaimed := arena.size - current;
        arena.size := current;
        totalAllocatedBytes.Sub(reclaimed);
      }
      assert View() == Shrink(st, arena);
    }

    /** `do_release_reservation`, the arena's destructor. */
    method DoReleaseReservation(arena: DeviceReservedArena)
      requires Ready() && arena in arenas
      modifies this`totalReservedBytes, this`arenas, totalAllocatedBytes
      ensures View() == Release(old(View()), arena)
      ensures arenas == old(arenas) - {arena} && totalAllocatedBytes.value >= 0
    {
      ghost var st := View();
      var released := 0;
      if arena.size > arena.used {
        released := arena.size - Max(0, arena.used);
      }
      totalReservedBytes := SubWord(totalReservedBytes, Max(0, arena.size));
      totalAllocatedBytes.Sub(released);
      arenas := arenas - {arena};
      assert View() == Release(st, arena);
    }

    /** `attach_reservation_to_tracker`: a refused reservation is destroyed with the argument. */
    method AttachReservationToTracker(stream: Stream, arena: DeviceReservedArena, policy: Policy) returns (ok: bool)
      requires Ready() && arena in arenas && !Attached(View(), arena)
      modifies this`totalReservedBytes, this`arenas, this`streams, totalAllocatedBytes
      ensures Ready()
      ensures ok == (stream !in old(streams))
      ensures View() == Attach(old(View()), stream, arena, policy)
      ensures streams == if ok then old(streams)[stream := Tracker(arena, policy)] else old(streams)
      ensures arenas == if ok then old(arenas) else old(arenas) - {arena}
    {
      ok := stream !in streams;
      if ok {
        streams := streams[stream := Tracker(arena, policy)];
      } else {
        DoReleaseReservation(arena);
      }
    }

    /** `reset_stream_reservation`. */
    method ResetStreamReservation(stream: Stream)
      requires Ready()
      modifies this`totalReservedBytes, this`arenas, this`streams, totalAllocatedBytes
      ensures Ready()
      ensures View() == Reset(old(View()), stream)
      ensures streams == old(streams) - {stream}
    {
      if stream in streams {
        DoReleaseReservation(streams[stream].arena);
        streams := streams - {stream};
      }
    }

    /** `check_reservation_and_handle_overflow`: charges the stream, unless the policy objects. */
    method CheckReservationAndHandleOverflow(tracker: Tracker<DeviceReservedArena>, padded: nat)
      returns (ok: bool, tracking: int)
      modifies tracker.arena`used
      ensures ok == old(Fits(tracker.arena.used, padded, tracker.arena.size) || tracker.policy.Ignore?)
      ensures tracker.arena.used == old(tracker.arena.used) + (if ok then padded else 0)
      ensures ok ==> tracking == OverflowCharge(padded, tracker.arena.size, old(tracker.arena.used))
    {
      var arena := tracker.arena;
      var success := Fits(arena.used, padded, arena.size);
      if !success && tracker.policy.Fail? {
        return false, 0;
      }
      arena.used := arena.used + padded;
      var post := arena.used;
      var pre := post - padded;
      tracking := padded;
      if post < arena.size {
        tracking := 0;
      } else if pre < arena.size {
        tracking := post - arena.size;
      }
      ok := true;
    }

    /** `do_allocate_unmanaged`: one try. */
    method DoAllocateUnmanaged(tracking: int, delivers: bool) returns (ok: bool)
      requires tracking >= 0 && totalAllocatedBytes.value >= 0
      modifies totalAllocatedBytes, peakTotalAllocatedBytes
      ensures (ok, totalAllocatedBytes.value, peakTotalAllocatedBytes.peak)
              == TryAllocate(cfg, old(totalAllocatedBytes.value), old(peakTotalAllocatedBytes.peak), tracking, [delivers])
    {
      var post: int;
      ghost var at;
      ok, post, at := totalAllocatedBytes.TryAdd(tracking, cfg.capacity);
      if ok {
        peakTotalAllocatedBytes.UpdatePeak(post);
        if !delivers {
          totalAllocatedBytes.Sub(tracking);
          ok := false;
        }
      }
    }

    /** The first try and the retries of the out-of-memory policy. */
    method TryUntilExhausted(tracking: int, attempts: seq<bool>) returns (ok: bool)
      requires tracking >= 0 && totalAllocatedBytes.value >= 0
      modifies totalAllocatedBytes, peakTotalAllocatedBytes
      ensures (ok, totalAllocatedBytes.value, peakTotalAllocatedBytes.peak)
              == TryAllocate(cfg, old(totalAllocatedBytes.value), old(peakTotalAllocatedBytes.peak), tracking, attempts)
    {
      ghost var goal := TryAllocate(cfg, totalAllocatedBytes.value, peakTotalAllocatedBytes.peak, tracking, attempts);
      var rest := attempts;
      while true
        invariant totalAllocatedBytes.value == old(totalAllocatedBytes.value)
        invariant goal == TryAllocate(cfg, totalAllocatedBytes.value, peakTotalAllocatedBytes.peak, tracking, rest)
        decreases |rest|
      {
        ok := DoAllocateUnmanaged(tracking, rest != [] && rest[0]);
        if ok || |rest| <= 1 {
          return;
        }
        rest := rest[1..];
      }
    }

    /** `do_allocate_managed` on a tracked stream: when the policy gives up, the stream counter is
        put back. */
    method DoAllocateManaged(padded: nat, stream: Stream, attempts: seq<bool>) returns (ok: bool)
      requires Ready() && stream in streams
      modifies streams[stream].arena, totalAllocatedBytes, peakTotalAllocatedBytes
      ensures Ready()
      ensures View() == old(View()).(total := View().total, peak := View().peak, arenas := View().arenas)
      ensures var a := old(View()).arenas[streams[stream].arena];
              if !Fits(a.used, padded, a.size) && streams[stream].policy.Fail? then
                !ok && View() == old(View())
              else
                && (ok, View().total, View().peak)
                   == TryAllocate(cfg, old(View()).total, old(View()).peak, OverflowCharge(padded, a.size, a.used), attempts)
                && View().arenas == if ok then old(View()).arenas[streams[stream].arena := a.(used := a.used + padded)]
                                    else old(View()).arenas
    {
      ghost var st := View();
      var arena := streams[stream].arena;
      var fits, tracking := CheckReservationAndHandleOverflow(streams[stream], padded);
      if !fits {
        assert View().arenas == st.arenas;
        return false;
      }
      ok := TryUntilExhausted(tracking, attempts);
      if ok {
        assert View().arenas == st.arenas[arena := st.arenas[arena].(used := st.arenas[arena].used + padded)];
      } else {
        arena.used := arena.used - padded;
        assert View().arenas == st.arenas;
      }
    }

    /** `do_allocate_managed` for a stream without tracker. */
    method DoAllocateUntracked(bytes: nat, stream: Stream, attempts: seq<bool>, ghost ptr: Ptr) returns (ok: bool)
      requires Ready() && ptr !in buffers && stream !in streams
      modifies this`buffers, arenas, totalAllocatedBytes, peakTotalAllocatedBytes
      ensures Ready()
      ensures (View(), ok) == Allocate(cfg, old(View()), bytes, stream, attempts, ptr)
    {
      ghost var st := View();
      var padded := AlignUp(bytes, ALIGNMENT);
      ok := TryUntilExhausted(padded, attempts);
      if ok {
        buffers := buffers[ptr := padded];
      }
      assert View().arenas == st.arenas;
    }

    /** `do_allocate_managed` for a stream with one. */
    method DoAllocateTracked(bytes: nat, stream: Stream, attempts: seq<bool>, ghost ptr: Ptr) returns (ok: bool)
      requires Ready() && ptr !in buffers && stream in streams
      modifies this`buffers, arenas, totalAllocatedBytes, peakTotalAllocatedBytes
      ensures Ready()
      ensures (View(), ok) == Allocate(cfg, old(View()), bytes, stream, attempts, ptr)
    {
      ghost var st := View();
      var padded := AlignUp(bytes, ALIGNMENT);
      ok := DoAllocateManaged(padded, stream, attempts);
      if ok {
        buffers := buffers[ptr := padded];
      }
      ghost var (st', ok') := Allocate(cfg, st, bytes, stream, attempts, ptr);
      assert View().arenas == st'.arenas;
    }

    /** `do_allocate`; `ptr` names the buffer delivered. */
    method DoAllocate(bytes: nat, stream: Stream, attempts: seq<bool>, ghost ptr: Ptr) returns (ok: bool)
      requires Ready() && ptr !in buffers
      modifies this`buffers, arenas, totalAllocatedBytes, peakTotalAllocatedBytes
      ensures Ready()
      ensures (View(), ok) == Allocate(cfg, old(View()), bytes, stream, attempts, ptr)
      ensures ok ==> ptr in buffers && Rounded(buffers[ptr], bytes, 256)
    {
      AlignUpIsRounded(bytes, 256);
      if stream in streams {
        ok := DoAllocateTracked(bytes, stream, attempts, ptr);
      } else {
        ok := DoAllocateUntracked(bytes, stream, attempts, ptr);
      }
    }

    /** `do_deallocate`, with the size the buffer was allocated with, on any stream. */
    method DoDeallocate(ghost ptr: Ptr, bytes: nat, stream: Stream)
      requires Ready() && ptr in buffers && Rounded(buffers[ptr], bytes, 256)
      modifies this`buffers, arenas, totalAllocatedBytes
      ensures Ready()
      ensures View() == Free(old(View()), ptr, stream)
    {
      ghost var st := View();
      RoundedIsAlignUp(buffers[ptr], bytes, 256);
      var trackingBytes := AlignUp(bytes, ALIGNMENT);
      var reclaimed: int := trackingBytes;
      if stream in streams {
        var arena := streams[stream].arena;
        arena.used := arena.used - trackingBytes;
        var post := arena.used;
        var pre := post + trackingBytes;
        if pre <= arena.size {
          reclaimed := 0;
        } else if post < arena.size {
          reclaimed := arena.size - post;
        }
      }
      totalAllocatedBytes.Sub(reclaimed);
      buffers := buffers - {ptr};
      assert View() == Free(st, ptr, stream);
    }
  }
}
