/** Device allocations and frees among other threads: a failed allocation leaves both counters
    alone, yet can cost a reservation its charge; and a free lets the reservation be refilled before
    the upstream resource has its memory back. */
module GpuFailures {
  import opened Prelude
  import opened AtomicCounters
  import opened GpuSteps
  import L = GpuLedger
  import I = GpuInterleaving

  // ----- a failed allocation nets to zero -----

  function UsedOf<A(==)>(st: Shared<A>, arena: A): int {
    if arena in st.arenas then st.arenas[arena].used else 0
  }

  /** The change of the total in the steps of thread `t`, or in those of all the others. */
  function TotalMoved<A(==)>(cfg: L.Config, st: Shared<A>, steps: seq<Step<A>>, t: Id, own: bool): int {
    if steps == [] then 0
    else
      var before, step := steps[..|steps| - 1], steps[|steps| - 1];
      TotalMoved(cfg, st, before, t, own)
      + if (step.thread == t) == own then Run(cfg, st, steps).total - Run(cfg, st, before).total else 0
  }

  /** The change of an arena's counter in the steps of thread `t`, or in those of all the others. */
  function UsedMoved<A(==)>(cfg: L.Config, st: Shared<A>, steps: seq<Step<A>>, t: Id, own: bool, arena: A): int {
    if steps == [] then 0
    else
      var before, step := steps[..|steps| - 1], steps[|steps| - 1];
      UsedMoved(cfg, st, before, t, own, arena)
      + if (step.thread == t) == own then UsedOf(Run(cfg, st, steps), arena) - UsedOf(Run(cfg, st, before), arena) else 0
  }

  lemma {:induction false} MovesAddUp<A>(cfg: L.Config, st: Shared<A>, steps: seq<Step<A>>, t: Id, arena: A)
    ensures Run(cfg, st, steps).total - st.total == TotalMoved(cfg, st, steps, t, true) + TotalMoved(cfg, st, steps, t, false)
    ensures UsedOf(Run(cfg, st, steps), arena) - UsedOf(st, arena)
            == UsedMoved(cfg, st, steps, t, true, arena) + UsedMoved(cfg, st, steps, t, false, arena)
  {
    if steps != [] {
      MovesAddUp(cfg, st, steps[..|steps| - 1], t, arena);
    }
  }

  /** In the whole run thread `t` only allocates, and gets nothing. */
  predicate GetsNothing<A(==)>(steps: seq<Step<A>>, t: Id) {
    forall i :: 0 <= i < |steps| && steps[i].thread == t ==>
      steps[i].DoTrack? || steps[i].DoCharge? || steps[i].DoRefund? || steps[i].DoGiveUp?
  }

  predicate Allocating<A(==)>(st: Shared<A>, t: Id) {
    t in st.flights ==> st.flights[t].Tracked? || st.flights[t].Charged?
  }

  /** Arenas do not go while they are in use. */
  predicate Anchored<A(==)>(st: Shared<A>) {
    forall t :: t in st.flights && ArenaIn(st.flights[t]).Some? ==> ArenaIn(st.flights[t]).value in st.arenas
  }

  /** An arena goes only in a step of a thread that owns it. */
  lemma OnlyOwnedGo<A>(cfg: L.Config, st: Shared<A>, step: Step<A>, a: A)
    requires a in st.arenas && a !in Next(cfg, st, step).arenas
    ensures OwnedBy(st, a, step.thread) && step.thread !in st.flights
    ensures step.thread in Next(cfg, st, step).flights && Next(cfg, st, step).flights[step.thread].Returning?
  {
  }

  lemma NewUse<A>(cfg: L.Config, st: Shared<A>, step: Step<A>, a: A)
    requires step.thread in Next(cfg, st, step).flights && ArenaIn(Next(cfg, st, step).flights[step.thread]) == Some(a)
    ensures a in st.arenas || (step.thread in st.flights && ArenaIn(st.flights[step.thread]) == Some(a))
  {
  }

  /** A step changes no flight but its thread's. */
  predicate KeepsFlight<A(==)>(st: Shared<A>, st': Shared<A>, t: Id) {
    (t in st'.flights <==> t in st.flights) && (t in st.flights ==> st'.flights[t] == st.flights[t])
  }

  lemma OthersAllocate<A>(cfg: L.Config, st: Shared<A>, step: Step<A>, t: Id)
    requires step.thread != t && I.Allocates(step)
    ensures KeepsFlight(st, Next(cfg, st, step), t)
  {
  }

  lemma OthersReserve<A>(cfg: L.Config, st: Shared<A>, step: Step<A>, t: Id)
    requires step.thread != t && !I.Allocates(step)
    ensures KeepsFlight(st, Next(cfg, st, step), t)
  {
  }

  lemma OthersKeepFlight<A>(cfg: L.Config, st: Shared<A>, step: Step<A>, t: Id)
    requires step.thread != t
    ensures KeepsFlight(st, Next(cfg, st, step), t)
  {
    if I.Allocates(step) { OthersAllocate(cfg, st, step, t); } else { OthersReserve(cfg, st, step, t); }
  }

  lemma AnchoredStays<A>(cfg: L.Config, st: Shared<A>, step: Step<A>)
    requires Anchored(st)
    ensures Anchored(Next(cfg, st, step))
  {
    var st' := Next(cfg, st, step);
    forall t | t in st'.flights && ArenaIn(st'.flights[t]).Some?
      ensures ArenaIn(st'.flights[t]).value in st'.arenas
    {
      var a := ArenaIn(st'.flights[t]).value;
      if t == step.thread { NewUse(cfg, st, step, a); } else { OthersKeepFlight(cfg, st, step, t); }
      if a !in st'.arenas { OnlyOwnedGo(cfg, st, step, a); }
    }
  }

  /** Every reachable state has it. */
  lemma {:induction false} AnchoredAlways<A>(cfg: L.Config, start: Shared<A>, steps: seq<Step<A>>)
    requires start == Start()
    ensures Anchored(Run(cfg, start, steps))
  {
    if steps != [] {
      AnchoredAlways(cfg, start, steps[..|steps| - 1]);
      AnchoredStays(cfg, Run(cfg, start, steps[..|steps| - 1]), steps[|steps| - 1]);
    }
  }

  function HeldTotal<A(==)>(st: Shared<A>, t: Id): int {
    if t in st.flights && st.flights[t].Charged? then st.flights[t].tracking else 0
  }

  function HeldUsed<A(==)>(st: Shared<A>, t: Id, arena: A): int {
    if t in st.flights && (st.flights[t].Tracked? || st.flights[t].Charged?) && st.flights[t].from == Some(arena)
    then st.flights[t].bytes else 0
  }

  lemma SubWordWraps(v: int, d: int) returns (k: int)
    ensures SubWord(v, d) == v - d + k * WORD
    ensures d <= v ==> k == 0
  {
    if d <= v {
      k := 0;
    } else {
      k := 0 - (v - d) / WORD;
      assert v - d == (v - d) / WORD * WORD + (v - d) % WORD;
    }
  }

  /** One step of an allocation moves each counter by the change of what the thread holds on it. */
  lemma OwnStep<A>(cfg: L.Config, st: Shared<A>, step: Step<A>, arena: A) returns (k: int)
    requires Anchored(st) && Allocating(st, step.thread)
    requires step.DoTrack? || step.DoCharge? || step.DoRefund? || step.DoGiveUp?
    ensures var st', t := Next(cfg, st, step), step.thread;
            && Allocating(st', t)
            && UsedOf(st', arena) - UsedOf(st, arena) == HeldUsed(st', t, arena) - HeldUsed(st, t, arena)
            && st'.total - st.total == HeldTotal(st', t) - HeldTotal(st, t) + k * WORD
            && (!I.Wraps(st, step) ==> k == 0)
  {
    var t := step.thread;
    k := 0;
    if step.DoRefund? && t in st.flights && st.flights[t].Charged? {
      k := SubWordWraps(st.total, st.flights[t].tracking);
    }
    assert t in st.flights ==> ArenaIn(st.flights[t]) == st.flights[t].from;
  }

  lemma {:induction false} OwnMovesAreHeld<A>(cfg: L.Config, st: Shared<A>, steps: seq<Step<A>>, t: Id, arena: A) returns (k: int)
    requires Anchored(st) && t !in st.flights && GetsNothing(steps, t)
    ensures var st' := Run(cfg, st, steps);
            && Anchored(st') && Allocating(st', t)
            && UsedMoved(cfg, st, steps, t, true, arena) == HeldUsed(st', t, arena)
            && TotalMoved(cfg, st, steps, t, true) == HeldTotal(st', t) + k * WORD
            && (I.NeverWraps(cfg, st, steps) ==> k == 0)
  {
    if steps == [] {
      k := 0;
    } else {
      var before, step := steps[..|steps| - 1], steps[|steps| - 1];
      k := OwnMovesAreHeld(cfg, st, before, t, arena);
      var now := Run(cfg, st, before);
      AnchoredStays(cfg, now, step);
      if step.thread == t {
        var more := OwnStep(cfg, now, step, arena);
        k := k + more;
      } else {
        OthersKeepFlight(cfg, now, step, t);
      }
    }
  }

  /** Whatever other threads do in between, and however often the out-of-memory policy retries: a
      thread whose allocations have all failed has left every stream counter, and the unsigned
      total, exactly where the other threads put them. */
  lemma FailedAllocationsNetZero<A>(cfg: L.Config, st: Shared<A>, steps: seq<Step<A>>, t: Id, arena: A) returns (k: int)
    requires Anchored(st) && t !in st.flights && GetsNothing(steps, t)
    requires t !in Run(cfg, st, steps).flights
    ensures var st' := Run(cfg, st, steps);
            && UsedOf(st', arena) - UsedOf(st, arena) == UsedMoved(cfg, st, steps, t, false, arena)
            && st'.total - st.total == TotalMoved(cfg, st, steps, t, false) + k * WORD
            && (I.NeverWraps(cfg, st, steps) ==> k == 0)
  {
    k := OwnMovesAreHeld(cfg, st, steps, t, arena);
    MovesAddUp(cfg, st, steps, t, arena);
  }

  // ----- yet it can cost a reservation its charge -----

  /** A run through given states. */
  lemma {:induction false} Path<A>(cfg: L.Config, states: seq<Shared<A>>, steps: seq<Step<A>>)
    requires |states| == |steps| + 1
    requires forall i :: 0 <= i < |steps| ==> Next(cfg, states[i], steps[i]) == states[i + 1]
    ensures Run(cfg, states[0], steps) == states[|steps|]
  {
    if steps != [] {
      Path(cfg, states[..|steps|], steps[..|steps| - 1]);
    }
  }

  /** One reservation of 512 bytes on stream 7, `used` of them in use. */
  function Scene(total: int, used: int, buffers: map<Id, nat>, flights: map<Id, Flight<nat>>): Shared<nat> {
    Shared(total, map[0 := L.Arena(512, used)], {0}, map[7 := L.Tracker(0, L.Ignore)], buffers, flights)
  }

  /** Thread 1 reserves 512 bytes for stream 7 and allocates them. */
  const PROLOGUE: seq<Step<nat>> := [
    DoChargeReserve(1, 512), DoOpen(1, 0), DoAttach(1, 7, 0, L.Ignore),
    DoTrack(1, 512, 7), DoCharge(1), DoDeliver(1, 1)]

  const FULL := Scene(512, 512, map[1 := 512], map[])

  lemma Reserved(cfg: L.Config)
    requires cfg.limit >= 512
    ensures var s1 := Shared(512, map[], {}, map[], map[], map[1 := Reserving(512)]);
            var s2 := Shared(512, map[0 := L.Arena(512, 0)], {0}, map[], map[], map[]);
            && Next(cfg, Start<nat>(), DoChargeReserve(1, 512)) == s1
            && Next(cfg, s1, DoOpen(1, 0)) == s2
            && Next(cfg, s2, DoAttach(1, 7, 0, L.Ignore)) == Scene(512, 0, map[], map[])
  {
    var f: map<Id, Flight<nat>> := map[1 := Reserving(512)];
    assert f - {1} == map[];
  }

  lemma TrackedFull(cfg: L.Config)
    ensures Next(cfg, Scene(512, 0, map[], map[]), DoTrack(1, 512, 7))
            == Scene(512, 512, map[], map[1 := Tracked(Some(0), 512, 0, false)])
  {
    assert L.Padded(512) == 512;
  }

  lemma Filled(cfg: L.Config)
    requires cfg.capacity >= 512
    ensures var s5 := Scene(512, 512, map[], map[1 := Charged(Some(0), 512, 0)]);
            && Next(cfg, Scene(512, 512, map[], map[1 := Tracked(Some(0), 512, 0, false)]), DoCharge(1)) == s5
            && Next(cfg, s5, DoDeliver(1, 1)) == FULL
  {
    var f: map<Id, Flight<nat>> := map[1 := Charged(Some(0), 512, 0)];
    assert f - {1} == map[];
  }

  lemma PrologueEnds(cfg: L.Config)
    requires cfg.limit >= 512 && cfg.capacity >= 512
    ensures Run(cfg, Start(), PROLOGUE) == FULL
  {
    Reserved(cfg);
    TrackedFull(cfg);
    Filled(cfg);
    var states := [
      Start<nat>(), Shared(512, map[], {}, map[], map[], map[1 := Reserving(512)]),
      Shared(512, map[0 := L.Arena(512, 0)], {0}, map[], map[], map[]), Scene(512, 0, map[], map[]),
      Scene(512, 512, map[], map[1 := Tracked(Some(0), 512, 0, false)]),
      Scene(512, 512, map[], map[1 := Charged(Some(0), 512, 0)]), FULL];
    Path(cfg, states, PROLOGUE);
  }

  const CFG := L.Config(4096, 4096)

  /** Thread 2 asks for 256 bytes more, is charged for them and turned down by the upstream
      resource; in between, thread 1 frees its buffer. */
  const OVERLAP: seq<Step<nat>> := [
    DoTrack(2, 256, 7), DoCharge(2),
    DoFree(1, 1, 7), DoDeallocate(1), DoReturn(1),
    DoRefund(2), DoGiveUp(2)]

  lemma ChargedToo()
    ensures var s1 := Scene(512, 768, map[1 := 512], map[2 := Tracked(Some(0), 256, 256, false)]);
            && Next(CFG, FULL, DoTrack(2, 256, 7)) == s1
            && Next(CFG, s1, DoCharge(2)) == Scene(768, 768, map[1 := 512], map[2 := Charged(Some(0), 256, 256)])
  {
    assert L.Padded(256) == 256;
  }

  lemma FreedMeanwhile()
    ensures var doomed: Flight<nat> := Charged(Some(0), 256, 256);
            Next(CFG, Scene(768, 768, map[1 := 512], map[2 := doomed]), DoFree(1, 1, 7))
            == Scene(768, 256, map[], map[2 := doomed, 1 := Freeing(512, 256)])
  {
    assert map[1 := 512] - {1} == map[];
  }

  lemma ReturnedMeanwhile()
    ensures var doomed: Flight<nat> := Charged(Some(0), 256, 256);
            var s4 := Scene(768, 256, map[], map[2 := doomed, 1 := Returning(256)]);
            && Next(CFG, Scene(768, 256, map[], map[2 := doomed, 1 := Freeing(512, 256)]), DoDeallocate(1)) == s4
            && Next(CFG, s4, DoReturn(1)) == Scene(512, 256, map[], map[2 := doomed])
  {
    var doomed: Flight<nat> := Charged(Some(0), 256, 256);
    assert map[2 := doomed, 1 := Returning(256)] - {1} == map[2 := doomed];
  }

  lemma TurnedDown()
    ensures var s6 := Scene(256, 256, map[], map[2 := Tracked(Some(0), 256, 256, true)]);
            && Next(CFG, Scene(512, 256, map[], map[2 := Charged(Some(0), 256, 256)]), DoRefund(2)) == s6
            && Next(CFG, s6, DoGiveUp(2)) == Scene(256, 0, map[], map[])
  {
    var f: map<Id, Flight<nat>> := map[2 := Tracked(Some(0), 256, 256, true)];
    assert f - {2} == map[];
  }

  lemma OverlapEnds()
    ensures Run(CFG, FULL, OVERLAP) == Scene(256, 0, map[], map[])
  {
    ChargedToo();
    FreedMeanwhile();
    ReturnedMeanwhile();
    TurnedDown();
    var doomed: Flight<nat> := Charged(Some(0), 256, 256);
    var states := [
      FULL, Scene(512, 768, map[1 := 512], map[2 := Tracked(Some(0), 256, 256, false)]),
      Scene(768, 768, map[1 := 512], map[2 := doomed]),
      Scene(768, 256, map[], map[2 := doomed, 1 := Freeing(512, 256)]),
      Scene(768, 256, map[], map[2 := doomed, 1 := Returning(256)]),
      Scene(512, 256, map[], map[2 := doomed]),
      Scene(256, 256, map[], map[2 := Tracked(Some(0), 256, 256, true)]), Scene(256, 0, map[], map[])];
    Path(CFG, states, OVERLAP);
  }

  lemma {:induction false} RunConcat<A>(cfg: L.Config, st: Shared<A>, a: seq<Step<A>>, b: seq<Step<A>>)
    ensures Run(cfg, st, a + b) == Run(cfg, Run(cfg, st, a), b)
  {
    if b == [] {
      assert a + b == a;
    } else {
      RunConcat(cfg, st, a, b[..|b| - 1]);
      assert (a + b)[..|a + b| - 1] == a + b[..|b| - 1];
    }
  }

  lemma SceneOwes()
    ensures I.Owed(Scene(256, 0, map[], map[])) == 512
  {
    var arenas := map[0 := L.Arena(512, 0)];
    MapSumRemove(arenas, 0, L.Footprint());
    MapSumRemove(arenas, 0, L.Used());
    assert arenas - {0} == map[];
  }

  /** Netting to zero is not enough. The freeing thread sees the stream counter while the doomed
      request is on it, takes its own buffer for one that lay partly beyond the reservation, and
      gives back 256 bytes that the reservation still owns. In the end nothing is allocated, a
      reservation of 512 bytes stands, and the total says 256. */
  lemma FailureCostsCharge()
    ensures Run(CFG, Start(), PROLOGUE + OVERLAP) == Scene(256, 0, map[], map[])
    ensures I.Owed(Scene(256, 0, map[], map[])) == 512
  {
    PrologueEnds(CFG);
    OverlapEnds();
    RunConcat(CFG, Start(), PROLOGUE, OVERLAP);
    SceneOwes();
  }

  // ----- and a free lets others in before the memory is back -----

  const TIGHT := L.Config(512, 512)

  /** Thread 1 has taken its buffer off the stream counter, but not yet given it back upstream;
      thread 2 fills the reservation again. */
  const REFILL: seq<Step<nat>> := [DoFree(1, 1, 7), DoTrack(2, 512, 7), DoCharge(2), DoDeliver(2, 2)]

  lemma RefillSteps()
    ensures var s1 := Scene(512, 0, map[], map[1 := Freeing(512, 0)]);
            var s2 := Scene(512, 512, map[], map[1 := Freeing(512, 0), 2 := Tracked(Some(0), 512, 0, false)]);
            && Next(TIGHT, FULL, DoFree(1, 1, 7)) == s1
            && Next(TIGHT, s1, DoTrack(2, 512, 7)) == s2
  {
    assert map[1 := 512] - {1} == map[];
    assert L.Padded(512) == 512;
  }

  lemma RefillDelivered()
    ensures var s2 := Scene(512, 512, map[], map[1 := Freeing(512, 0), 2 := Tracked(Some(0), 512, 0, false)]);
            var s3 := Scene(512, 512, map[], map[1 := Freeing(512, 0), 2 := Charged(Some(0), 512, 0)]);
            && Next(TIGHT, s2, DoCharge(2)) == s3
            && Next(TIGHT, s3, DoDeliver(2, 2)) == Scene(512, 512, map[2 := 512], map[1 := Freeing(512, 0)])
  {
    var f: map<Id, Flight<nat>> := map[1 := Freeing(512, 0), 2 := Charged(Some(0), 512, 0)];
    assert f - {2} == map[1 := Freeing(512, 0)];
  }

  lemma RefillHolds()
    ensures I.HeldUpstream(Scene(512, 512, map[2 := 512], map[1 := Freeing(512, 0)])) == 1024
  {
    var buffers: map<Id, nat> := map[2 := 512];
    var flights: map<Id, Flight<nat>> := map[1 := Freeing(512, 0)];
    MapSumRemove(buffers, 2, L.Amount());
    MapSumRemove(flights, 1, I.StillHeld());
    assert buffers - {2} == map[] && flights - {1} == map[];
  }

  /** With 512 bytes of capacity, all of them reserved, the upstream resource is made to hold 1024
      for this adaptor, while the total says 512. */
  lemma RefillOvershoots()
    ensures Run(TIGHT, Start(), PROLOGUE + REFILL) == Scene(512, 512, map[2 := 512], map[1 := Freeing(512, 0)])
    ensures I.HeldUpstream(Scene(512, 512, map[2 := 512], map[1 := Freeing(512, 0)])) == 1024
  {
    PrologueEnds(TIGHT);
    RefillSteps();
    RefillDelivered();
    var states := [
      FULL, Scene(512, 0, map[], map[1 := Freeing(512, 0)]),
      Scene(512, 512, map[], map[1 := Freeing(512, 0), 2 := Tracked(Some(0), 512, 0, false)]),
      Scene(512, 512, map[], map[1 := Freeing(512, 0), 2 := Charged(Some(0), 512, 0)]),
      Scene(512, 512, map[2 := 512], map[1 := Freeing(512, 0)])];
    Path(TIGHT, states, REFILL);
    RunConcat(TIGHT, Start(), PROLOGUE, REFILL);
    RefillHolds();
  }
}
