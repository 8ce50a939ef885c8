/** The state machine of `data_batch` (src/data/data_batch.cpp). Every operation holds the batch
    mutex throughout, so each is one atomic step. */
module Batches {
  import opened Prelude

  /** `memory_space_id`. */
  type SpaceId = nat

  /** A data representation: which object it is, and the memory space it lives in. */
  datatype Representation = Representation(object: nat, space: SpaceId)

  datatype State = Idle | TaskCreated | Processing | InTransit

  datatype Batch = Batch(
    id: nat,                        // _batch_id
    data: Option<Representation>,   // _data
    processing: nat,                // _processing_count
    tasks: nat,                     // _task_created_count
    state: State)                   // _state

  datatype LockStatus = Locked | TaskNotCreated | InvalidState | MemorySpaceMismatch | MissingData

  datatype CancelResult = Cancelled(after: Batch) | NotCancelled | CancelThrew

  function NewBatch(id: nat, data: Option<Representation>): Batch {
    Batch(id, data, 0, 0, Idle)
  }

  function CreateTask(b: Batch): (Batch, bool) {
    match b.state
    case Idle => (b.(state := TaskCreated, tasks := b.tasks + 1), true)
    case TaskCreated => (b.(tasks := b.tasks + 1), true)
    case Processing => (b.(tasks := b.tasks + 1), true)
    case InTransit => (b, false)
  }

  function CancelTask(b: Batch): CancelResult {
    if b.state.TaskCreated? || b.state.Processing? then
      if b.tasks == 0 then CancelThrew
      else
        var b1 := b.(tasks := b.tasks - 1);
        Cancelled(if b1.tasks == 0 && b1.processing == 0 then b1.(state := Idle) else b1)
    else NotCancelled
  }

  function LockForProcessing(b: Batch, requested: SpaceId): (Batch, LockStatus) {
    if b.data.None? then (b, MissingData)
    else if b.data.value.space != requested then (b, MemorySpaceMismatch)
    else if b.tasks == 0 then (b, TaskNotCreated)
    else if !(b.state.TaskCreated? || b.state.Processing?) then (b, InvalidState)
    else (b.(tasks := b.tasks - 1, processing := b.processing + 1, state := Processing), Locked)
  }

  function LockForInTransit(b: Batch): (Batch, bool) {
    if b.processing == 0 && (b.state.Idle? || (b.state.TaskCreated? && b.tasks > 0))
    then (b.(state := InTransit), true)
    else (b, false)
  }

  function ReleaseInTransit(b: Batch, target: Option<State>): (Batch, bool) {
    if b.state.InTransit? then (b.(state := if target.Some? then target.value else Idle), true)
    else (b, false)
  }

  /** `decrement_processing_count`; `None` is an exception, and then nothing has changed. */
  function Decrement(b: Batch): Option<Batch> {
    if !b.state.Processing? || b.processing == 0 then None
    else if b.processing > 1 then Some(b.(processing := b.processing - 1))
    else Some(b.(processing := 0, state := if b.tasks > 0 then TaskCreated else Idle))
  }

  /** The guarded replacement of `_data` by `set_data` and `convert_to`; `None` is an exception. */
  function Install(b: Batch, data: Option<Representation>): Option<Batch> {
    if b.processing != 0 then None else Some(b.(data := data))
  }

  // ----- batches, handles and their clients -----

  type Ref = nat

  /** A `data_batch_processing_handle` object: null, or pointing at a batch. `seen` and `space` are
      the data object at lock time and the space the handle asked for. */
  datatype Handle = Null | Holding(batch: Ref, seen: Representation, space: SpaceId)

  /** All batches, and all handle objects in existence. */
  datatype World = World(batches: map<Ref, Batch>, handles: map<Ref, Handle>)

  datatype Op =
    | OpNew(batch: Ref, id: nat, data: Option<Representation>)
    | OpCreateTask(batch: Ref)
    | OpCancelTask(batch: Ref)
    | OpLock(batch: Ref, space: SpaceId, handle: Ref)         // `handle` is the new result object
    | OpLockInTransit(batch: Ref)
    | OpReleaseInTransit(batch: Ref, target: Option<State>)
    | OpInstall(batch: Ref, data: Option<Representation>)
    | OpRelease(handle: Ref)                                  // release()
    | OpDestroy(handle: Ref)                                  // destructor
    | OpMoveConstruct(from: Ref, handle: Ref)                 // `handle` is the new object
    | OpMoveAssign(from: Ref, handle: Ref)

  /** `handle.release()`: whether it throws, and the world afterwards. */
  function Released(w: World, handle: Ref): (World, bool)
    requires handle in w.handles
  {
    var h := w.handles[handle];
    if h.Null? then (w, false)
    else if h.batch !in w.batches then (w, true)
    else
      var b := Decrement(w.batches[h.batch]);
      if b.None? then (w, true)
      else (World(w.batches[h.batch := b.value], w.handles[handle := Null]), false)
  }

  /** Whether a step is one whose handle operation lets an exception out. */
  predicate HandleThrows(w: World, op: Op) {
    match op
    case OpRelease(h) => h in w.handles && Released(w, h).1
    case OpDestroy(h) => h in w.handles && Released(w, h).1
    case OpMoveAssign(from, h) => from in w.handles && h in w.handles && from != h && Released(w, h).1
    case _ => false
  }

  function WithBatch(w: World, r: Ref, b: Batch): World {
    w.(batches := w.batches[r := b])
  }

  /** Operations that name a batch which does not exist, or a handle name already or not yet in
      use, are not possible and change nothing. */
  function Next(w: World, op: Op): World {
    match op
    case OpNew(r, id, data) => if r in w.batches then w else WithBatch(w, r, NewBatch(id, data))
    case OpCreateTask(r) => if r in w.batches then WithBatch(w, r, CreateTask(w.batches[r]).0) else w
    case OpCancelTask(r) =>
      if r in w.batches && CancelTask(w.batches[r]).Cancelled? then WithBatch(w, r, CancelTask(w.batches[r]).after) else w
    case OpLock(r, space, h) =>
      if r in w.batches && h !in w.handles then
        var (b, status) := LockForProcessing(w.batches[r], space);
        World(w.batches[r := b],
              w.handles[h := if status.Locked? then Holding(r, w.batches[r].data.value, space) else Null])
      else w
    case OpLockInTransit(r) => if r in w.batches then WithBatch(w, r, LockForInTransit(w.batches[r]).0) else w
    case OpReleaseInTransit(r, target) =>
      if r in w.batches then WithBatch(w, r, ReleaseInTransit(w.batches[r], target).0) else w
    case OpInstall(r, data) =>
      if r in w.batches && Install(w.batches[r], data).Some? then WithBatch(w, r, Install(w.batches[r], data).value) else w
    case OpRelease(h) => if h in w.handles then Released(w, h).0 else w
    case OpDestroy(h) =>
      if h in w.handles && !Released(w, h).1 then
        var w1 := Released(w, h).0;
        w1.(handles := w1.handles - {h})
      else w
    case OpMoveConstruct(from, h) =>
      if from in w.handles && h !in w.handles then w.(handles := w.handles[h := w.handles[from]][from := Null]) else w
    case OpMoveAssign(from, h) =>
      if from in w.handles && h in w.handles && from != h && !Released(w, h).1 then
        var w1 := Released(w, h).0;
        w1.(handles := w1.handles[h := w1.handles[from]][from := Null])
      else w
  }

  function Exec(w: World, ops: seq<Op>): World {
    if ops == [] then w else Next(Exec(w, ops[..|ops| - 1]), ops[|ops| - 1])
  }

  const EMPTY := World(map[], map[])
}
