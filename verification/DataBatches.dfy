/** `data_batch` and `data_batch_processing_handle` as objects. Each method is proved to do what
    the function of the same name in `Batches` says about its state. */
module DataBatches {
  import opened Prelude
  import opened Batches

  class DataBatch {
    const batchId: nat
    var data: Option<Representation>
    var processingCount: nat
    var taskCreatedCount: nat
    var state: State

    function View(): Batch
      reads this
    {
      Batch(batchId, data, processingCount, taskCreatedCount, state)
    }

    constructor (batchId: nat, data: Option<Representation>)
      ensures View() == NewBatch(batchId, data)
    {
      this.batchId := batchId;
      this.data := data;
      processingCount := 0;
      taskCreatedCount := 0;
      state := Idle;
    }

    method SetData(data: Option<Representation>) returns (threw: bool)
      modifies this
      ensures threw <==> Install(old(View()), data).None?
      ensures View() == if threw then old(View()) else Install(old(View()), data).value
    {
      if processingCount != 0 {
        return true;
      }
      this.data := data;
      threw := false;
    }

    /** `convert_to`, with what the converter produced: `None` when it threw. */
    method ConvertTo(produced: Option<Representation>) returns (threw: bool)
      modifies this
      ensures threw <==> produced.None? || Install(old(View()), produced).None?
      ensures View() == if threw then old(View()) else Install(old(View()), produced).value
    {
      if processingCount != 0 {
        return true;
      }
      if produced.None? {
        return true;
      }
      data := produced;
      threw := false;
    }

    method TryToCreateTask() returns (success: bool)
      modifies this
      ensures (View(), success) == CreateTask(old(View()))
    {
      success := false;
      if state == Idle {
        state := TaskCreated;
        taskCreatedCount := taskCreatedCount + 1;
        success := true;
      } else if state == TaskCreated {
        taskCreatedCount := taskCreatedCount + 1;
        success := true;
      } else if state == Processing {
        taskCreatedCount := taskCreatedCount + 1;
        success := true;
      }
    }

    method TryToCancelTask() returns (success: bool, threw: bool)
      modifies this
      ensures threw <==> CancelTask(old(View())).CancelThrew?
      ensures success <==> CancelTask(old(View())).Cancelled?
      ensures View() == if success then CancelTask(old(View())).after else old(View())
    {
      success, threw := false, false;
      if state == TaskCreated || state == Processing {
        if taskCreatedCount == 0 {
          threw := true;
          return;
        }
        taskCreatedCount := taskCreatedCount - 1;
        if taskCreatedCount == 0 && processingCount == 0 {
          state := Idle;
        }
        success := true;
      }
    }

    method TryToLockForProcessing(requested: SpaceId) returns (handle: ProcessingHandle, status: LockStatus)
      modifies this
      ensures (View(), status) == LockForProcessing(old(View()), requested)
      ensures fresh(handle) && handle.batch == if status.Locked? then this else null
    {
      handle := new ProcessingHandle(null);
      if data.None? {
        return handle, MissingData;
      }
      if data.value.space != requested {
        return handle, MemorySpaceMismatch;
      }
      if taskCreatedCount == 0 {
        return handle, TaskNotCreated;
      }
      if !(state == TaskCreated || state == Processing) {
        return handle, InvalidState;
      }
      taskCreatedCount := taskCreatedCount - 1;
      processingCount := processingCount + 1;
      state := Processing;
      handle := new ProcessingHandle(this);
      status := Locked;
    }

    method TryToLockForInTransit() returns (success: bool)
      modifies this
      ensures (View(), success) == LockForInTransit(old(View()))
    {
      success := false;
      if processingCount == 0 && (state == Idle || (state == TaskCreated && taskCreatedCount > 0)) {
        state := InTransit;
        success := true;
      }
    }

    method TryToReleaseInTransit(target: Option<State>) returns (success: bool)
      modifies this
      ensures (View(), success) == ReleaseInTransit(old(View()), target)
    {
      success := false;
      if state == InTransit {
        if target.Some? {
          state := target.value;
        } else {
          state := Idle;
        }
        success := true;
      }
    }

    method DecrementProcessingCount() returns (threw: bool)
      modifies this
      ensures threw <==> Decrement(old(View())).None?
      ensures View() == if threw then old(View()) else Decrement(old(View())).value
    {
      if state != Processing {
        return true;
      }
      if processingCount == 0 {
        return true;
      }
      processingCount := processingCount - 1;
      if processingCount == 0 {
        state := if taskCreatedCount > 0 then TaskCreated else Idle;
      }
      threw := false;
    }
  }

  class ProcessingHandle {
    var batch: DataBatch?

    constructor (batch: DataBatch?)
      ensures this.batch == batch
    {
      this.batch := batch;
    }

    /** `release()`, which is also all the destructor does. If the decrement throws, the handle
        still points at its batch. */
    method Release() returns (threw: bool)
      modifies this, batch
      ensures threw <==> old(batch) != null && Decrement(old(batch.View())).None?
      ensures batch == if threw then old(batch) else null
      ensures old(batch) != null ==>
                old(batch).View() == if threw then old(batch.View()) else Decrement(old(batch.View())).value
    {
      threw := false;
      if batch != null {
        threw := batch.DecrementProcessingCount();
        if !threw {
          batch := null;
        }
      }
    }

    /** Move construction. */
    constructor Moved(other: ProcessingHandle)
      modifies other
      ensures batch == old(other.batch) && other.batch == null
    {
      batch := other.batch;
      new;
      other.batch := null;
    }

    /** Move assignment: the batch held so far is released first, and only then is the other one
        taken over. Moving a handle onto itself does nothing. */
    method Assign(other: ProcessingHandle) returns (threw: bool)
      modifies this, other, batch
      ensures threw <==> this != other && old(batch) != null && Decrement(old(batch.View())).None?
      ensures this == other || threw ==> batch == old(batch) && other.batch == old(other.batch)
      ensures this != other && !threw ==> batch == old(other.batch) && other.batch == null
      ensures old(batch) != null ==>
                old(batch).View() == if this == other || threw then old(batch.View()) else Decrement(old(batch.View())).value
    {
      threw := false;
      if this != other {
        threw := Release();
        if !threw {
          batch := other.batch;
          other.batch := null;
        }
      }
    }
  }
}
