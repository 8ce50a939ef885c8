/** Properties of whole runs of batch operations: where the count of tasks comes from, and exactly
    which runs keep `_state` in agreement with the two counters. */
module BatchHistory {
  import opened Prelude
  import opened Batches
  import opened BatchInvariants

  // ----- which batch a step acts on, and how -----

  function HeldBy(w: World, h: Ref): Option<Ref> {
    if h in w.handles && w.handles[h].Holding? then Some(w.handles[h].batch) else None
  }

  /** The existing batch a step acts on, if any. */
  function Touched(w: World, op: Op): Option<Ref> {
    var r: Option<Ref> :=
      match op
      case OpNew(_, _, _) => None
      case OpCreateTask(q) => Some(q)
      case OpCancelTask(q) => Some(q)
      case OpLock(q, _, h) => if h in w.handles then None else Some(q)
      case OpLockInTransit(q) => Some(q)
      case OpReleaseInTransit(q, _) => Some(q)
      case OpInstall(q, _) => Some(q)
      case OpRelease(h) => HeldBy(w, h)
      case OpDestroy(h) => HeldBy(w, h)
      case OpMoveConstruct(_, _) => None
      case OpMoveAssign(from, h) => if from in w.handles && from != h then HeldBy(w, h) else None;
    if r.Some? && r.value in w.batches then r else None
  }

  /** What such a step makes of the batch. */
  function After(b: Batch, op: Op): Batch {
    match op
    case OpNew(_, _, _) => b
    case OpCreateTask(_) => CreateTask(b).0
    case OpCancelTask(_) => if CancelTask(b).Cancelled? then CancelTask(b).after else b
    case OpLock(_, space, _) => LockForProcessing(b, space).0
    case OpLockInTransit(_) => LockForInTransit(b).0
    case OpReleaseInTransit(_, target) => ReleaseInTransit(b, target).0
    case OpInstall(_, data) => if Install(b, data).Some? then Install(b, data).value else b
    case _ => if Decrement(b).Some? then Decrement(b).value else b
  }

  /** A step changes no batch but the one it acts on. */
  lemma StepActsOn(w: World, op: Op, r: Ref)
    requires r in w.batches
    ensures r in Next(w, op).batches
    ensures Next(w, op).batches[r] == if Touched(w, op) == Some(r) then After(w.batches[r], op) else w.batches[r]
  {
  }

  lemma StepAdds(w: World, op: Op, r: Ref)
    requires r !in w.batches && r in Next(w, op).batches
    ensures op.OpNew? && op.batch == r && Next(w, op).batches[r] == NewBatch(op.id, op.data)
  {
  }

  // ----- tasks -----

  /** What the caller of a step is told it did to the pending tasks of batch `r`: +1 for a created
      task, -1 for a cancelled one and for one turned into a processing lock. */
  function TaskReport(w: World, op: Op, r: Ref): int {
    if Touched(w, op) != Some(r) then 0
    else
      match op
      case OpCreateTask(_) => if CreateTask(w.batches[r]).1 then 1 else 0
      case OpCancelTask(_) => if CancelTask(w.batches[r]).Cancelled? then 0 - 1 else 0
      case OpLock(_, space, _) => if LockForProcessing(w.batches[r], space).1.Locked? then 0 - 1 else 0
      case _ => 0
  }

  function TaskBalance(ops: seq<Op>, r: Ref): int {
    if ops == [] then 0
    else TaskBalance(ops[..|ops| - 1], r) + TaskReport(Exec(EMPTY, ops[..|ops| - 1]), ops[|ops| - 1], r)
  }

  function TasksOf(w: World, r: Ref): nat {
    if r in w.batches then w.batches[r].tasks else 0
  }

  /** After any run the pending tasks of a batch are the successful creations minus the successful
      cancellations minus the successful locks; nothing else changes them. */
  lemma {:induction false} TasksConserved(ops: seq<Op>, r: Ref)
    ensures TasksOf(Exec(EMPTY, ops), r) == TaskBalance(ops, r)
  {
    if ops != [] {
      var w, op := Exec(EMPTY, ops[..|ops| - 1]), ops[|ops| - 1];
      TasksConserved(ops[..|ops| - 1], r);
      if r in w.batches {
        StepActsOn(w, op, r);
      } else if r in Next(w, op).batches {
        StepAdds(w, op, r);
      }
    }
  }

  // ----- state and counters -----

  /** `P` holds after every prefix of the run, the empty one and the whole one included. */
  ghost predicate Always(ops: seq<Op>, P: World -> bool) {
    P(Exec(EMPTY, ops)) && (ops != [] ==> Always(ops[..|ops| - 1], P))
  }

  /** `ok` holds of every step of the run in the world it starts from. */
  ghost predicate EveryStep(ops: seq<Op>, ok: (World, Op) -> bool) {
    ops != [] ==>
      ok(Exec(EMPTY, ops[..|ops| - 1]), ops[|ops| - 1]) && EveryStep(ops[..|ops| - 1], ok)
  }

  ghost predicate ProcessingIffCounted(w: World) {
    forall r :: r in w.batches ==> (w.batches[r].state.Processing? <==> w.batches[r].processing > 0)
  }

  /** The step does not release a batch from transit into state processing. */
  predicate NotIntoProcessing(w: World, op: Op) {
    op.OpReleaseInTransit? && op.batch in w.batches && w.batches[op.batch].state.InTransit? ==>
      op.target != Some(Processing)
  }

  /** One batch under one step that acts on it. */
  lemma ProcessingAfter(b: Batch, op: Op)
    requires b.state.Processing? <==> b.processing > 0
    ensures var b' := After(b, op);
            (b'.state.Processing? <==> b'.processing > 0)
            <==> !(op.OpReleaseInTransit? && b.state.InTransit? && op.target == Some(Processing))
  {
  }

  lemma ProcessingStep(w: World, op: Op)
    requires ProcessingIffCounted(w)
    ensures ProcessingIffCounted(Next(w, op)) <==> NotIntoProcessing(w, op)
  {
    var w' := Next(w, op);
    forall r | r in w'.batches
      ensures r in w.batches ==>
                (w'.batches[r].state.Processing? <==> w'.batches[r].processing > 0)
                || (Touched(w, op) == Some(r) && !NotIntoProcessing(w, op))
      ensures r !in w.batches ==> !w'.batches[r].state.Processing? && w'.batches[r].processing == 0
    {
      if r in w.batches { StepActsOn(w, op, r); ProcessingAfter(w.batches[r], op); } else { StepAdds(w, op, r); }
    }
    if !NotIntoProcessing(w, op) {
      StepActsOn(w, op, op.batch);
      ProcessingAfter(w.batches[op.batch], op);
    }
  }

  /** State `processing` means a positive processing count throughout a run if and only if no step
      of the run releases a batch from transit into `processing`. */
  lemma {:induction false} ProcessingExactIff(ops: seq<Op>)
    ensures Always(ops, ProcessingIffCounted) <==> EveryStep(ops, NotIntoProcessing)
  {
    if ops != [] {
      var before := ops[..|ops| - 1];
      ProcessingExactIff(before);
      RunSound(before);
      if Always(before, ProcessingIffCounted) {
        ProcessingStep(Exec(EMPTY, before), ops[|ops| - 1]);
      }
    }
  }

  /** The state the counters call for. */
  function Called(b: Batch): State {
    if b.processing > 0 then Processing else if b.tasks > 0 then TaskCreated else Idle
  }

  ghost predicate StateFollowsCounters(w: World) {
    forall r :: r in w.batches && !w.batches[r].state.InTransit? ==> w.batches[r].state == Called(w.batches[r])
  }

  /** A release from transit goes where the pending tasks call for, or stays in transit. */
  predicate ReleasesFaithfully(w: World, op: Op) {
    op.OpReleaseInTransit? && op.batch in w.batches && w.batches[op.batch].state.InTransit? ==>
      var target := if op.target.Some? then op.target.value else Idle;
      target.InTransit? || target == (if w.batches[op.batch].tasks > 0 then TaskCreated else Idle)
  }

  /** One batch under one step that acts on it. */
  lemma FaithfulAfter(b: Batch, op: Op)
    requires b.processing > 0 ==> b.state.Processing?
    requires !b.state.InTransit? ==> b.state == Called(b)
    ensures var b' := After(b, op);
            (!b'.state.InTransit? ==> b'.state == Called(b'))
            <==> !(op.OpReleaseInTransit? && b.state.InTransit? &&
                   var target := if op.target.Some? then op.target.value else Idle;
                   !(target.InTransit? || target == (if b.tasks > 0 then TaskCreated else Idle)))
  {
  }

  lemma FaithfulStep(w: World, op: Op)
    requires CountedMeansProcessing(w) && StateFollowsCounters(w)
    ensures StateFollowsCounters(Next(w, op)) <==> ReleasesFaithfully(w, op)
  {
    var w' := Next(w, op);
    forall r | r in w'.batches
      ensures r in w.batches ==>
                (!w'.batches[r].state.InTransit? ==> w'.batches[r].state == Called(w'.batches[r]))
                || (Touched(w, op) == Some(r) && !ReleasesFaithfully(w, op))
      ensures r !in w.batches ==> w'.batches[r].state == Called(w'.batches[r])
    {
      if r in w.batches { StepActsOn(w, op, r); FaithfulAfter(w.batches[r], op); } else { StepAdds(w, op, r); }
    }
    if !ReleasesFaithfully(w, op) {
      StepActsOn(w, op, op.batch);
      FaithfulAfter(w.batches[op.batch], op);
    }
  }

  /** Outside transit the state says exactly what the counters say - idle without tasks or handles,
      task_created with tasks only, processing with handles - throughout a run if and only if every
      release from transit picks the state its task count calls for. */
  lemma {:induction false} StateFollowsCountersIff(ops: seq<Op>)
    ensures Always(ops, StateFollowsCounters) <==> EveryStep(ops, ReleasesFaithfully)
  {
    if ops != [] {
      var before := ops[..|ops| - 1];
      StateFollowsCountersIff(before);
      RunSound(before);
      if Always(before, StateFollowsCounters) {
        FaithfulStep(Exec(EMPTY, before), ops[|ops| - 1]);
      }
    }
  }

  /** In such a run a lock is refused for its state only while the batch is in transit, and
      cancelling a task throws only if there is none while handles are out. */
  lemma FaithfulRunsLock(ops: seq<Op>, r: Ref, space: SpaceId)
    requires EveryStep(ops, ReleasesFaithfully) && r in Exec(EMPTY, ops).batches
    ensures var b := Exec(EMPTY, ops).batches[r];
            && (LockForProcessing(b, space).1.Locked? <==>
                  b.data.Some? && b.data.value.space == space && b.tasks > 0 && !b.state.InTransit?)
            && (CancelTask(b).CancelThrew? <==> b.tasks == 0 && b.processing > 0)
  {
    StateFollowsCountersIff(ops);
    RunSound(ops);
  }

  /** The default release of a batch with a pending task breaks this: the batch is idle with a
      task, and a lock is refused although its task was created and never cancelled. */
  lemma DefaultReleaseStrandsTask()
    ensures var data := Some(Representation(7, 0));
            var ops := [OpNew(0, 1, data), OpCreateTask(0), OpLockInTransit(0), OpReleaseInTransit(0, None)];
            && 0 in Exec(EMPTY, ops).batches
            && Exec(EMPTY, ops).batches[0] == Batch(1, data, 0, 1, Idle)
            && LockForProcessing(Exec(EMPTY, ops).batches[0], 0).1 == InvalidState
            && !EveryStep(ops, ReleasesFaithfully)
  {
    var data := Some(Representation(7, 0));
    var o1 := [OpNew(0, 1, data)];
    var o2 := o1 + [OpCreateTask(0)];
    var o3 := o2 + [OpLockInTransit(0)];
    var o4 := o3 + [OpReleaseInTransit(0, None)];
    assert o1[..0] == [] && o2[..1] == o1 && o3[..2] == o2 && o4[..3] == o3;
    assert Exec(EMPTY, o1) == Next(EMPTY, o1[0]);
    assert Exec(EMPTY, o2).batches[0] == Batch(1, data, 0, 1, TaskCreated);
    assert Exec(EMPTY, o3).batches[0] == Batch(1, data, 0, 1, InTransit);
    assert o4 == [OpNew(0, 1, data), OpCreateTask(0), OpLockInTransit(0), OpReleaseInTransit(0, None)];
  }
}
