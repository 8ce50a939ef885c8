/** What every batch operation promises its caller, in terms of the live handles: when it succeeds
    and all it changes, after any run; and, for runs whose releases from transit are faithful, that
    the four states and two counters are an elaborate way to keep a ledger of three numbers. */
module BatchOutcomes {
  import opened Prelude
  import opened Batches
  import opened BatchInvariants
  import opened BatchHistory

  /** Some live handle holds the batch. */
  predicate Held(w: World, r: Ref) {
    exists h :: h in w.handles && w.handles[h].Holding? && w.handles[h].batch == r
  }

  lemma HeldIffCounted(w: World, r: Ref)
    requires HandlesCounted(w) && r in w.batches
    ensures Held(w, r) <==> w.batches[r].processing > 0
  {
    if Held(w, r) {
      var h :| h in w.handles && w.handles[h].Holding? && w.handles[h].batch == r;
      HandleIsCounted(w, h);
    } else {
      NobodyHolds(w.handles, r);
    }
  }

  // ----- after any run -----

  /** A task can be created exactly while the batch is not in transit, whoever holds it. That adds
      one task; an idle batch becomes task_created, a batch being processed goes on being processed. */
  lemma CreationMeans(ops: seq<Op>, r: Ref)
    requires r in Exec(EMPTY, ops).batches
    ensures var w := Exec(EMPTY, ops);
            var b, (b', ok) := w.batches[r], CreateTask(w.batches[r]);
            && (ok <==> !b.state.InTransit?)
            && (Held(w, r) ==> ok && b'.state.Processing?)
            && Next(w, OpCreateTask(r)) == WithBatch(w, r, b')
            && b' == if ok then b.(tasks := b.tasks + 1, state := if b.state.Idle? then TaskCreated else b.state) else b
  {
    RunSound(ops);
    HeldIffCounted(Exec(EMPTY, ops), r);
  }

  /** A pending task can be cancelled exactly in the states task_created and processing, where
      cancelling without one throws. The batch becomes idle with its last task, unless it is held. */
  lemma CancellationMeans(ops: seq<Op>, r: Ref)
    requires r in Exec(EMPTY, ops).batches
    ensures var w := Exec(EMPTY, ops);
            var b, result := w.batches[r], CancelTask(w.batches[r]);
            var active := b.state.TaskCreated? || b.state.Processing?;
            && (result.Cancelled? <==> active && b.tasks > 0)
            && (result.CancelThrew? <==> active && b.tasks == 0)
            && (result.Cancelled? ==>
                  result.after == b.(tasks := b.tasks - 1, state := if b.tasks == 1 && !Held(w, r) then Idle else b.state))
            && Next(w, OpCancelTask(r)) == if result.Cancelled? then WithBatch(w, r, result.after) else w
  {
    RunSound(ops);
    HeldIffCounted(Exec(EMPTY, ops), r);
  }

  /** The first condition not met is the one reported; if all are, one task turns into one handle. */
  lemma LockMeans(ops: seq<Op>, r: Ref, space: SpaceId, h: Ref)
    requires r in Exec(EMPTY, ops).batches && h !in Exec(EMPTY, ops).handles
    ensures var w := Exec(EMPTY, ops);
            var b, status := w.batches[r], LockForProcessing(w.batches[r], space).1;
            var w' := Next(w, OpLock(r, space, h));
            var here := b.data.Some? && b.data.value.space == space;
            && (status.MissingData? <==> b.data.None?)
            && (status.MemorySpaceMismatch? <==> b.data.Some? && !here)
            && (status.TaskNotCreated? <==> here && b.tasks == 0)
            && (status.InvalidState? <==> here && b.tasks > 0 && (b.state.Idle? || b.state.InTransit?))
            && w'.handles == w.handles[h := if status.Locked? then Holding(r, b.data.value, space) else Null]
            && w'.batches == w.batches[r := if status.Locked?
                                            then b.(tasks := b.tasks - 1, processing := b.processing + 1, state := Processing)
                                            else b]
  {
  }

  /** A lock for transit needs a batch that nobody holds, idle or with a pending task. It changes
      the state and nothing else; a refusal changes nothing. */
  lemma TransitLockMeans(ops: seq<Op>, r: Ref)
    requires r in Exec(EMPTY, ops).batches
    ensures var w := Exec(EMPTY, ops);
            var b, (b', ok) := w.batches[r], LockForInTransit(w.batches[r]);
            && (ok <==> !Held(w, r) && (b.state.Idle? || (b.state.TaskCreated? && b.tasks > 0)))
            && (b.state.Idle? ==> ok)
            && b' == (if ok then b.(state := InTransit) else b)
            && Next(w, OpLockInTransit(r)) == WithBatch(w, r, b')
  {
    RunSound(ops);
    HeldIffCounted(Exec(EMPTY, ops), r);
  }

  /** A release ends the transit of a batch in transit, in the state asked for, idle by default. */
  lemma TransitReleaseMeans(ops: seq<Op>, r: Ref, target: Option<State>)
    requires r in Exec(EMPTY, ops).batches
    ensures var w := Exec(EMPTY, ops);
            var b, (b', ok) := w.batches[r], ReleaseInTransit(w.batches[r], target);
            && (ok <==> b.state.InTransit?)
            && (ok ==> !Held(w, r) && b'.tasks == b.tasks && b'.data == b.data && b'.id == b.id && b'.processing == 0)
            && (ok && target.None? ==> b'.state.Idle?)
            && (ok && target.Some? ==> b'.state == target.value)
            && (!ok ==> b' == b)
            && Next(w, OpReleaseInTransit(r, target)) == WithBatch(w, r, b')
  {
    RunSound(ops);
    HeldIffCounted(Exec(EMPTY, ops), r);
  }

  /** New data goes in exactly while nobody holds the batch, and replaces the old and only it. */
  lemma InstallMeans(ops: seq<Op>, r: Ref, data: Option<Representation>)
    requires r in Exec(EMPTY, ops).batches
    ensures var w := Exec(EMPTY, ops);
            && (Install(w.batches[r], data).Some? <==> !Held(w, r))
            && Next(w, OpInstall(r, data))
               == if Held(w, r) then w else WithBatch(w, r, w.batches[r].(data := data))
  {
    RunSound(ops);
    HeldIffCounted(Exec(EMPTY, ops), r);
  }

  /** Letting go of a batch never throws. It stays in processing while another handle holds it;
      after the last it goes where the pending tasks call for. */
  lemma LettingGoMeans(ops: seq<Op>, h: Ref)
    requires h in Exec(EMPTY, ops).handles && Exec(EMPTY, ops).handles[h].Holding?
    ensures var w := Exec(EMPTY, ops);
            var w' := Next(w, OpRelease(h));
            var r := w.handles[h].batch;
            && !HandleThrows(w, OpRelease(h))
            && w'.handles == w.handles[h := Null]
            && r in w.batches
            && var b := w.batches[r];
               w' == World(w.batches[r := b.(processing := b.processing - 1,
                                             state := if Held(w', r) then Processing else if b.tasks > 0 then TaskCreated else Idle)],
                           w.handles[h := Null])
  {
    var w := Exec(EMPTY, ops);
    RunSound(ops);
    NextSound(w, OpRelease(h));
    HandleIsCounted(w, h);
    HeldIffCounted(Next(w, OpRelease(h)), w.handles[h].batch);
  }

  // ----- in faithful runs -----

  /** All there is to know about a batch: who it is, its data, how many live handles hold it, how
      many tasks are pending, and whether it is in transit. */
  datatype Entry = Entry(id: nat, data: Option<Representation>, holders: nat, tasks: nat, transit: bool)

  /** What an operation on the batch does to the entry. */
  function Settle(e: Entry, op: Op): Entry {
    match op
    case OpCreateTask(_) => if e.transit then e else e.(tasks := e.tasks + 1)
    case OpCancelTask(_) => if e.transit || e.tasks == 0 then e else e.(tasks := e.tasks - 1)
    case OpLock(_, space, _) =>
      if e.transit || e.tasks == 0 || e.data.None? || e.data.value.space != space then e
      else e.(tasks := e.tasks - 1, holders := e.holders + 1)
    case OpLockInTransit(_) => if e.holders > 0 then e else e.(transit := true)
    case OpReleaseInTransit(_, target) => e.(transit := e.transit && target == Some(InTransit))
    case OpInstall(_, data) => if e.holders > 0 then e else e.(data := data)
    case _ => if e.holders > 0 then e.(holders := e.holders - 1) else e
  }

  /** The ledger of a batch over a run, once it exists. */
  function Ledger(ops: seq<Op>, r: Ref): Option<Entry> {
    if ops == [] then None
    else
      var before, op := ops[..|ops| - 1], ops[|ops| - 1];
      var e := Ledger(before, r);
      if e.None? then (if op.OpNew? && op.batch == r then Some(Entry(op.id, op.data, 0, 0, false)) else None)
      else if Touched(Exec(EMPTY, before), op) == Some(r) then Some(Settle(e.value, op))
      else e
  }

  /** The batch object an entry calls for. */
  function Drawn(e: Entry): Batch {
    Batch(e.id, e.data, e.holders, e.tasks,
          if e.transit then InTransit else if e.holders > 0 then Processing else if e.tasks > 0 then TaskCreated else Idle)
  }

  /** One batch under one step that acts on it. */
  lemma SettleDraws(e: Entry, op: Op)
    requires e.transit ==> e.holders == 0
    requires op.OpReleaseInTransit? && e.transit ==>
               var target := if op.target.Some? then op.target.value else Idle;
               target.InTransit? || target == (if e.tasks > 0 then TaskCreated else Idle)
    requires !op.OpNew? && !op.OpMoveConstruct?
    ensures After(Drawn(e), op) == Drawn(Settle(e, op))
    ensures Settle(e, op).transit ==> Settle(e, op).holders == 0
  {
  }

  lemma LedgerStep(ops: seq<Op>, op: Op, r: Ref)
    requires var w := Exec(EMPTY, ops); CountedMeansProcessing(w) && ReleasesFaithfully(w, op)
    requires r in Exec(EMPTY, ops).batches && Ledger(ops, r).Some? && Exec(EMPTY, ops).batches[r] == Drawn(Ledger(ops, r).value)
    ensures var w' := Exec(EMPTY, ops + [op]);
            r in w'.batches && Ledger(ops + [op], r).Some? && w'.batches[r] == Drawn(Ledger(ops + [op], r).value)
  {
    var w := Exec(EMPTY, ops);
    assert (ops + [op])[..|ops|] == ops;
    StepActsOn(w, op, r);
    if Touched(w, op) == Some(r) { SettleDraws(Ledger(ops, r).value, op); }
  }

  /** In a run whose releases from transit are faithful, every batch is at all times what its ledger
      calls for: the states carry nothing that handles, tasks and the transit bit do not. */
  lemma {:induction false} RunIsLedger(ops: seq<Op>, r: Ref)
    requires EveryStep(ops, ReleasesFaithfully)
    ensures r in Exec(EMPTY, ops).batches <==> Ledger(ops, r).Some?
    ensures r in Exec(EMPTY, ops).batches ==>
              && Exec(EMPTY, ops).batches[r] == Drawn(Ledger(ops, r).value)
              && Ledger(ops, r).value.holders == MapSum(Exec(EMPTY, ops).handles, On(r))
  {
    RunSound(ops);
    if ops != [] {
      var before, op := ops[..|ops| - 1], ops[|ops| - 1];
      RunIsLedger(before, r);
      RunSound(before);
      assert ops == before + [op];
      if r in Exec(EMPTY, before).batches {
        LedgerStep(before, op, r);
      } else if r in Exec(EMPTY, ops).batches {
        StepAdds(Exec(EMPTY, before), op, r);
      }
    }
  }

  /** So in such a run every outcome can be told from handles, tasks, data and transit alone. */
  lemma FaithfulOutcomes(ops: seq<Op>, r: Ref, space: SpaceId, target: Option<State>)
    requires EveryStep(ops, ReleasesFaithfully) && r in Exec(EMPTY, ops).batches
    ensures var w := Exec(EMPTY, ops);
            var b := w.batches[r];
            var transit := b.state.InTransit?;
            && (CreateTask(b).1 <==> !transit)
            && (CancelTask(b).Cancelled? <==> !transit && b.tasks > 0)
            && (CancelTask(b).CancelThrew? <==> Held(w, r) && b.tasks == 0)
            && (LockForProcessing(b, space).1.Locked? <==>
                  !transit && b.tasks > 0 && b.data.Some? && b.data.value.space == space)
            && (LockForInTransit(b).1 <==> !transit && !Held(w, r))
            && (ReleaseInTransit(b, target).1 <==> transit)
  {
    RunIsLedger(ops, r);
    RunSound(ops);
    HeldIffCounted(Exec(EMPTY, ops), r);
  }
}
