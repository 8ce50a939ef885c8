/** What every run of batch operations keeps: handles are counted exactly, a counted batch is in
    state processing, and its data stays what it was when the handle was obtained. */
module BatchInvariants {
  import opened Prelude
  import opened Batches

  /** Counts the handles that hold a batch. */
  ghost function On(r: Ref): Handle -> int {
    (h: Handle) => if h.Holding? && h.batch == r then 1 else 0
  }

  ghost predicate HandlesCounted(w: World) {
    && (forall h :: h in w.handles && w.handles[h].Holding? ==> w.handles[h].batch in w.batches)
    && (forall r :: r in w.batches ==> w.batches[r].processing == MapSum(w.handles, On(r)))
  }

  predicate CountedMeansProcessing(w: World) {
    forall r :: r in w.batches && w.batches[r].processing > 0 ==> w.batches[r].state.Processing?
  }

  /** The data of a held batch is the object seen at lock time, in the space asked for. */
  ghost predicate DataStable(w: World) {
    forall h :: h in w.handles && w.handles[h].Holding? ==>
      && w.handles[h].batch in w.batches
      && w.batches[w.handles[h].batch].data == Some(w.handles[h].seen)
      && w.handles[h].seen.space == w.handles[h].space
  }

  ghost predicate Sound(w: World) {
    HandlesCounted(w) && CountedMeansProcessing(w) && DataStable(w)
  }

  /** A live handle is counted. */
  lemma HandleIsCounted(w: World, h: Ref)
    requires HandlesCounted(w) && h in w.handles && w.handles[h].Holding?
    ensures w.batches[w.handles[h].batch].processing > 0
  {
    MapSumNonNegative(w.handles, On(w.handles[h].batch));
    assert On(w.handles[h].batch)(w.handles[h]) == 1;
  }

  /** No handle holds a batch whose count is zero. */
  lemma UncountedMeansFree(w: World, r: Ref)
    requires HandlesCounted(w) && r in w.batches && w.batches[r].processing == 0
    ensures forall h :: h in w.handles ==> !(w.handles[h].Holding? && w.handles[h].batch == r)
  {
    forall h | h in w.handles && w.handles[h].Holding? && w.handles[h].batch == r
      ensures false
    {
      HandleIsCounted(w, h);
    }
  }

  // ----- one lemma a kind of step -----

  /** A change of one batch that leaves its count alone, and its data too if the count is positive. */
  lemma BatchChangeKeeps(w: World, r: Ref, b: Batch)
    requires Sound(w) && r in w.batches
    requires b.processing == w.batches[r].processing && (b.processing > 0 ==> b.state.Processing? && b.data == w.batches[r].data)
    ensures Sound(WithBatch(w, r, b))
  {
    if b.processing == 0 { UncountedMeansFree(w, r); }
  }

  lemma {:induction false} NobodyHolds(handles: map<Ref, Handle>, r: Ref)
    requires forall h :: h in handles && handles[h].Holding? ==> handles[h].batch != r
    ensures MapSum(handles, On(r)) == 0
    decreases |handles|
  {
    if handles != map[] {
      var h :| h in handles;
      MapSumRemove(handles, h, On(r));
      NobodyHolds(handles - {h}, r);
    }
  }

  lemma NewKeeps(w: World, r: Ref, b: Batch)
    requires Sound(w) && r !in w.batches && b.processing == 0
    ensures Sound(WithBatch(w, r, b))
  {
    NobodyHolds(w.handles, r);
  }

  lemma LockKeeps(w: World, r: Ref, space: SpaceId, h: Ref)
    requires Sound(w) && r in w.batches && h !in w.handles
    ensures Sound(Next(w, OpLock(r, space, h)))
  {
    var w' := Next(w, OpLock(r, space, h));
    forall q | q in w'.batches
      ensures w'.batches[q].processing == MapSum(w'.handles, On(q))
    {
      MapSumInsert(w.handles, h, w'.handles[h], On(q));
    }
  }

  lemma ReleaseKeeps(w: World, h: Ref)
    requires Sound(w) && h in w.handles
    ensures Sound(Released(w, h).0) && !Released(w, h).1
    ensures h in Released(w, h).0.handles && Released(w, h).0.handles[h].Null?
    ensures Released(w, h).0.handles.Keys == w.handles.Keys
  {
    if w.handles[h].Holding? {
      HandleIsCounted(w, h);
      var w' := Released(w, h).0;
      forall q | q in w'.batches
        ensures w'.batches[q].processing == MapSum(w'.handles, On(q))
      {
        MapSumUpdate(w.handles, h, Null, On(q));
      }
    }
  }

  lemma ForgetKeeps(w: World, h: Ref)
    requires Sound(w) && h in w.handles && w.handles[h].Null?
    ensures Sound(w.(handles := w.handles - {h}))
  {
    forall q | q in w.batches
      ensures MapSum(w.handles - {h}, On(q)) == MapSum(w.handles, On(q))
    {
      MapSumRemove(w.handles, h, On(q));
    }
  }

  /** Moving a handle into a new object, or into one that is null, keeps every count. */
  lemma MoveKeeps(w: World, from: Ref, h: Ref)
    requires Sound(w) && from in w.handles && from != h && (h in w.handles ==> w.handles[h].Null?)
    ensures Sound(w.(handles := w.handles[h := w.handles[from]][from := Null]))
  {
    var moved := w.handles[h := w.handles[from]];
    forall q | q in w.batches
      ensures MapSum(moved[from := Null], On(q)) == MapSum(w.handles, On(q))
    {
      if h in w.handles {
        MapSumUpdate(w.handles, h, w.handles[from], On(q));
      } else {
        MapSumInsert(w.handles, h, w.handles[from], On(q));
      }
      MapSumUpdate(moved, from, Null, On(q));
    }
  }

  lemma NextSound(w: World, op: Op)
    requires Sound(w)
    ensures Sound(Next(w, op))
    ensures !HandleThrows(w, op)
  {
    match op
    case OpNew(r, id, data) => if r !in w.batches { NewKeeps(w, r, NewBatch(id, data)); }
    case OpCreateTask(r) => if r in w.batches { BatchChangeKeeps(w, r, CreateTask(w.batches[r]).0); }
    case OpCancelTask(r) =>
      if r in w.batches && CancelTask(w.batches[r]).Cancelled? {
        BatchChangeKeeps(w, r, CancelTask(w.batches[r]).after);
      }
    case OpLock(r, space, h) => if r in w.batches && h !in w.handles { LockKeeps(w, r, space, h); }
    case OpLockInTransit(r) => if r in w.batches { BatchChangeKeeps(w, r, LockForInTransit(w.batches[r]).0); }
    case OpReleaseInTransit(r, target) =>
      if r in w.batches { BatchChangeKeeps(w, r, ReleaseInTransit(w.batches[r], target).0); }
    case OpInstall(r, data) =>
      if r in w.batches && Install(w.batches[r], data).Some? {
        BatchChangeKeeps(w, r, Install(w.batches[r], data).value);
      }
    case OpRelease(h) => if h in w.handles { ReleaseKeeps(w, h); }
    case OpDestroy(h) => if h in w.handles { ReleaseKeeps(w, h); ForgetKeeps(Released(w, h).0, h); }
    case OpMoveConstruct(from, h) => if from in w.handles && h !in w.handles { MoveKeeps(w, from, h); }
    case OpMoveAssign(from, h) =>
      if from in w.handles && h in w.handles && from != h {
        ReleaseKeeps(w, h);
        MoveKeeps(Released(w, h).0, from, h);
      }
  }

  lemma {:induction false} RunSound(ops: seq<Op>)
    ensures Sound(Exec(EMPTY, ops))
  {
    if ops != [] {
      RunSound(ops[..|ops| - 1]);
      NextSound(Exec(EMPTY, ops[..|ops| - 1]), ops[|ops| - 1]);
    }
  }

  // ----- what clients get -----

  /** After any run: each batch's processing count is the number of live handles on it, no release,
      move assignment or destructor of any handle can throw, and a live handle still finds the data
      object it was given, in the memory space it asked for. */
  lemma HandleSafety(ops: seq<Op>, op: Op)
    ensures var w := Exec(EMPTY, ops);
            && (forall r :: r in w.batches ==> w.batches[r].processing == MapSum(w.handles, On(r)))
            && !HandleThrows(w, op)
            && (forall h :: h in w.handles && w.handles[h].Holding? ==>
                  && w.handles[h].batch in w.batches
                  && w.batches[w.handles[h].batch].data == Some(w.handles[h].seen)
                  && w.handles[h].seen.space == w.handles[h].space)
  {
    RunSound(ops);
    NextSound(Exec(EMPTY, ops), op);
  }

  /** While a batch is in transit nobody holds it, so the guard of `set_data` and `convert_to`
      never fires: the new representation goes in. */
  lemma TransitIsExclusive(ops: seq<Op>, r: Ref, data: Option<Representation>)
    requires var w := Exec(EMPTY, ops); r in w.batches && w.batches[r].state.InTransit?
    ensures var w := Exec(EMPTY, ops);
            && (forall h :: h in w.handles ==> !(w.handles[h].Holding? && w.handles[h].batch == r))
            && Next(w, OpInstall(r, data)).batches[r] == w.batches[r].(data := data)
  {
    RunSound(ops);
    UncountedMeansFree(Exec(EMPTY, ops), r);
  }

  /** Conversely the guard lets a replacement through only if no handle would see its data change. */
  lemma InstallRefusedIffHeld(ops: seq<Op>, r: Ref, data: Option<Representation>)
    requires r in Exec(EMPTY, ops).batches
    ensures var w := Exec(EMPTY, ops);
            Install(w.batches[r], data).None? <==> exists h :: h in w.handles && w.handles[h].Holding? && w.handles[h].batch == r
  {
    var w := Exec(EMPTY, ops);
    RunSound(ops);
    if w.batches[r].processing == 0 {
      UncountedMeansFree(w, r);
    } else if forall h :: h in w.handles && w.handles[h].Holding? ==> w.handles[h].batch != r {
      NobodyHolds(w.handles, r);
    }
  }
}
