/** `idata_repository<std::shared_ptr<data_batch>>` as an object over batch objects. What other
    threads do is a parameter. They may change any batch between two attempts of a scan, and
    anything at all while a request waits: a `Scene` is one scan's view of the world, the partitions
    when it has the mutex and the values of the batches at each of its moments. Each request is
    proved to end as `Judge` says about the values its scans meet. */
module DataRepositories {
  import opened Prelude
  import opened Batches
  import opened Repositories
  import opened RepositorySearch
  import opened DataBatches
  import RepositoryInvariants

  /** `moments[i]` are the values of all batches involved when the scan comes to position `i`, the
      last moment being the end of the partition. Undisturbed, all moments are the same. */
  datatype Scene = Scene(parts: seq<seq<DataBatch>>, moments: seq<map<DataBatch, Batch>>)

  datatype Result = NotFound | OutOfRange | Threw | Blocked | Found(batch: DataBatch)

  /** Partitions never disappear, and batches keep their ids. */
  ghost predicate Plausible(scene: Scene, part: nat) {
    && part < |scene.parts| && |scene.moments| == |scene.parts[part]| + 1
    && (forall m :: 0 <= m < |scene.moments| ==>
          && scene.moments[m].Keys == scene.moments[0].Keys
          && forall b :: b in scene.moments[m] ==> scene.moments[m][b].id == b.batchId)
    && (forall i :: 0 <= i < |scene.parts[part]| ==> scene.parts[part][i] in scene.moments[0].Keys)
  }

  ghost predicate AllPlausible(scenes: seq<Scene>, part: nat) {
    forall i :: 0 <= i < |scenes| ==> Plausible(scenes[i], part)
  }

  /** What the scan meets: each batch with the value it has when its turn comes. */
  ghost function Line(scene: Scene, part: nat): (s: seq<Batch>)
    requires Plausible(scene, part)
    ensures |s| == |scene.parts[part]|
    ensures forall i :: 0 <= i < |s| ==> s[i] == scene.moments[i][scene.parts[part][i]]
  {
    seq(|scene.parts[part]|, i requires 0 <= i < |scene.parts[part]| => scene.moments[i][scene.parts[part][i]])
  }

  /** Every batch of any of the scenes. */
  ghost function Cast(scenes: seq<Scene>): set<DataBatch> {
    if scenes == [] then {}
    else (if scenes[0].moments == [] then {} else scenes[0].moments[0].Keys) + Cast(scenes[1..])
  }

  lemma CastHas(scenes: seq<Scene>, i: nat)
    requires i < |scenes| && scenes[i].moments != []
    ensures scenes[i].moments[0].Keys <= Cast(scenes)
  {
    if i > 0 { CastHas(scenes[1..], i - 1); }
  }

  /** The scans of the first `round` scenes made the request wait. */
  ghost predicate Waited(q: Request, scenes: seq<Scene>, round: nat)
    requires AllPlausible(scenes, q.part) && round <= |scenes|
  {
    forall k :: 0 <= k < round ==> Judge(q, Line(scenes[k], q.part)) == KeepWaiting
  }

  /** The scan of scene `round` is the first that does not, or the last there is. */
  ghost predicate Decides(q: Request, scenes: seq<Scene>, round: nat)
    requires AllPlausible(scenes, q.part)
  {
    && round < |scenes| && Waited(q, scenes, round)
    && (round < |scenes| - 1 ==> Judge(q, Line(scenes[round], q.part)) != KeepWaiting)
  }

  class DataRepository {
    var partitions: seq<seq<DataBatch>>

    constructor ()
      ensures partitions == [[]]
    {
      partitions := [[]];
    }

    /** Every batch has the value given. */
    ghost predicate Shows(values: map<DataBatch, Batch>)
      reads values.Keys
    {
      forall b :: b in values ==> b.View() == values[b]
    }

    /** How a request ends over the deciding scene: with the verdict on what the scan met, at the
        moment of the look that decided. */
    ghost predicate Ends(q: Request, scene: Scene, result: Result)
      requires Plausible(scene, q.part)
      reads this, scene.moments[0].Keys
    {
      var values := Line(scene, q.part);
      var moment := scene.moments[LooksBefore(q, values)];
      match Judge(q, values)
      case Nothing => result == NotFound && partitions == scene.parts && Shows(moment)
      case BadTarget => result == Result.Threw && partitions == scene.parts && Shows(moment)
      case KeepWaiting => result == Blocked && partitions == scene.parts && Shows(moment)
      case Accepts(k) =>
        && k < |values|
        && var b := scene.parts[q.part][k];
           && result == Found(b)
           && Shows(moment[b := Taken(q, values[k])])
           && partitions == if Removes(q) then scene.parts[q.part := RemoveAt(scene.parts[q.part], k)] else scene.parts
    }

    /** `scenes` tells the whole story of a request: which scan decided it, and how it ended. */
    ghost predicate Served(q: Request, scenes: seq<Scene>, result: Result, round: nat)
      reads this, Cast(scenes)
    {
      && AllPlausible(scenes, q.part) && Decides(q, scenes, round)
      && scenes[round].moments[0].Keys <= Cast(scenes)
      && Ends(q, scenes[round], result)
    }

    /** The request has waited through the first `round` scenes and is about to scan the next. */
    ghost predicate Standing(q: Request, scenes: seq<Scene>, round: nat)
      reads this
    {
      && round < |scenes| && AllPlausible(scenes, q.part) && Waited(q, scenes, round)
      && scenes[round].moments[0].Keys <= Cast(scenes)
      && partitions == scenes[round].parts
    }

    lemma Concludes(q: Request, scenes: seq<Scene>, result: Result, round: nat)
      requires round < |scenes| && AllPlausible(scenes, q.part) && scenes[round].moments[0].Keys <= Cast(scenes)
      requires Waited(q, scenes, round) && Ends(q, scenes[round], result)
      ensures result != Blocked || round == |scenes| - 1 ==> Served(q, scenes, result, round)
      ensures result == Blocked ==> Waited(q, scenes, round + 1)
    {
    }

    method AddDataBatch(batch: DataBatch, part: nat)
      modifies this
      ensures |partitions| == Max(|old(partitions)|, part + 1)
      ensures partitions[part] == (if part < |old(partitions)| then old(partitions)[part] else []) + [batch]
      ensures forall p :: 0 <= p < |partitions| && p != part ==>
                partitions[p] == if p < |old(partitions)| then old(partitions)[p] else []
    {
      if part >= |partitions| {
        partitions := partitions + seq(part + 1 - |partitions|, i => []);
      }
      partitions := partitions[part := partitions[part] + [batch]];
    }

    method TotalSize() returns (total: nat)
      ensures total == SeqSum(partitions, (p: seq<DataBatch>) => |p|)
    {
      total := 0;
      for i := 0 to |partitions|
        invariant total == SeqSum(partitions[..i], (p: seq<DataBatch>) => |p|)
      {
        SeqSumAppend(partitions[..i], partitions[i], (p: seq<DataBatch>) => |p|);
        assert partitions[..i + 1] == partitions[..i] + [partitions[i]];
        total := total + |partitions[i]|;
      }
      assert partitions[..|partitions|] == partitions;
    }

    /** `_cv.wait`: the thread gets the mutex back with other partitions. */
    method Wait(scene: Scene)
      modifies `partitions
      ensures partitions == scene.parts
    {
      partitions := scene.parts;
    }

    /** The others run up to the next moment. */
    method Interfere(values: map<DataBatch, Batch>)
      requires forall b :: b in values ==> values[b].id == b.batchId
      modifies values.Keys
      ensures Shows(values)
    {
      forall b | b in values { b.data := values[b].data; }
      forall b | b in values { b.processingCount := values[b].processing; }
      forall b | b in values { b.taskCreatedCount := values[b].tasks; }
      forall b | b in values { b.state := values[b].state; }
    }

    method TryTransitionBatchForPop(batch: DataBatch, target: State) returns (ok: bool, threw: bool)
      modifies batch
      ensures threw <==> target.Processing?
      ensures (batch.View(), ok) == Attempt(old(batch.View()), target)
    {
      ok, threw := false, false;
      match target
      case TaskCreated => ok := batch.TryToCreateTask();
      case Processing => threw := true;
      case InTransit => ok := batch.TryToLockForInTransit();
      case Idle =>
    }

    /** Takes the batch at `index` out of its partition. */
    method Erase(part: nat, index: nat) returns (batch: DataBatch)
      requires part < |partitions| && index < |partitions[part]|
      modifies `partitions
      ensures batch == old(partitions)[part][index]
      ensures partitions == old(partitions)[part := RemoveAt(old(partitions)[part], index)]
    {
      batch := partitions[part][index];
      partitions := partitions[part := RemoveAt(partitions[part], index)];
    }

    /** The scan has come to position `i`: the others have run, and the transition is tried. */
    method TryAt(target: State, part: nat, i: nat, scene: Scene) returns (ok: bool, threw: bool)
      requires Plausible(scene, part) && partitions == scene.parts && i < |scene.parts[part]|
      modifies scene.moments[0].Keys
      ensures threw <==> target.Processing?
      ensures ok <==> Attempt(Line(scene, part)[i], target).1
      ensures !ok ==> Shows(scene.moments[i])
      ensures ok ==> Shows(scene.moments[i][scene.parts[part][i] := Attempt(Line(scene, part)[i], target).0])
    {
      Interfere(scene.moments[i]);
      var batch := partitions[part][i];
      assert batch in scene.moments[i] && batch.View() == Line(scene, part)[i];
      ok, threw := TryTransitionBatchForPop(batch, target);
    }

    /** The batch at position `i` has accepted and leaves, unless the caller only wanted a copy. */
    method TakeAt(part: nat, i: nat, keep: bool, ghost scene: Scene, ghost q: Request) returns (result: Result)
      requires Plausible(scene, part) && partitions == scene.parts && i < |scene.parts[part]|
      requires q.part == part && Removes(q) == !keep
      requires Judge(q, Line(scene, part)) == Accepts(i) && LooksBefore(q, Line(scene, part)) == i
      requires Shows(scene.moments[i][scene.parts[part][i] := Taken(q, Line(scene, part)[i])])
      modifies `partitions
      ensures Ends(q, scene, result)
    {
      if keep {
        return Found(partitions[part][i]);
      }
      var batch := Erase(part, i);
      result := Found(batch);
    }

    /** One scan of `pop_data_batch`. */
    method ScanForPop(target: State, part: nat, scene: Scene) returns (result: Result)
      requires Plausible(scene, part) && partitions == scene.parts
      modifies this, scene.moments[0].Keys
      ensures Ends(Pop(0, part, target), scene, result)
    {
      ghost var q, values := Pop(0, part, target), Line(scene, part);
      if |partitions[part]| == 0 {
        Interfere(scene.moments[0]);
        return NotFound;
      }
      for i := 0 to |partitions[part]|
        invariant partitions == scene.parts
        invariant forall j :: 0 <= j < i ==> PassedOver(q, values[j])
        invariant i > 0 ==> target != Processing
      {
        var ok, threw := TryAt(target, part, i, scene);
        if threw {
          return Result.Threw;
        }
        if ok {
          FirstCandidateIs(q, values, i);
          result := TakeAt(part, i, false, scene, q);
          return;
        }
        RepositoryInvariants.RefusalLeavesBatch(values[i], target);
      }
      FirstCandidateIs(q, values, |values|);
      Interfere(scene.moments[|partitions[part]|]);
      result := Blocked;
    }

    /** The batch with the id, at position `i`, is what a search by id is about. */
    method FetchAt(target: Option<State>, keep: bool, part: nat, i: nat, scene: Scene, ghost q: Request)
      returns (result: Result)
      requires Plausible(scene, part) && partitions == scene.parts && i < |scene.parts[part]|
      requires q.Fetch? && q.part == part && q.target == target && q.keep == keep
      requires FirstCandidate(q, Line(scene, part)) == i
      modifies this, scene.moments[0].Keys
      ensures Ends(q, scene, result)
    {
      if target.Some? {
        var ok, threw := TryAt(target.value, part, i, scene);
        if threw {
          return Result.Threw;
        }
        if !ok {
          return Blocked;
        }
      } else {
        Interfere(scene.moments[i]);
        assert scene.parts[part][i] in scene.moments[i];
      }
      result := TakeAt(part, i, keep, scene, q);
    }

    /** One search for an id: `pop_data_batch_by_id` and `get_data_batch_by_id` differ only in
        whether the batch found leaves the partition. */
    method ScanForId(id: nat, target: Option<State>, keep: bool, part: nat, scene: Scene) returns (result: Result)
      requires Plausible(scene, part) && partitions == scene.parts
      modifies this, scene.moments[0].Keys
      ensures Ends(Fetch(0, part, id, target, keep), scene, result)
    {
      ghost var q, values := Fetch(0, part, id, target, keep), Line(scene, part);
      for i := 0 to |partitions[part]|
        invariant partitions == scene.parts
        invariant forall j :: 0 <= j < i ==> PassedOver(q, values[j])
      {
        assert scene.parts[part][i] in scene.moments[i] && values[i].id == scene.parts[part][i].batchId;
        if partitions[part][i].batchId == id {
          FirstCandidateIs(q, values, i);
          result := FetchAt(target, keep, part, i, scene, q);
          return;
        }
      }
      FirstCandidateIs(q, values, |values|);
      Interfere(scene.moments[|partitions[part]|]);
      result := NotFound;
    }

    /** `pop_data_batch`, over the scenes of its scans. */
    method PopDataBatch(target: State, part: nat, scenes: seq<Scene>) returns (result: Result, round: nat)
      requires AllPlausible(scenes, part) || part >= |partitions|
      requires scenes != [] && scenes[0].parts == partitions
      modifies this, Cast(scenes)
      ensures result == Result.OutOfRange <==> part >= |old(partitions)|
      ensures part >= |old(partitions)| ==>
                && unchanged(this)
                && forall i, b :: 0 <= i < |scenes| && scenes[i].moments != [] && b in scenes[i].moments[0] ==>
                     b.View() == old(b.View())
      ensures part < |old(partitions)| ==> Served(Pop(0, part, target), scenes, result, round)
    {
      round := 0;
      if part >= |partitions| {
        return Result.OutOfRange, 0;
      }
      CastHas(scenes, 0);
      while true
        invariant Standing(Pop(0, part, target), scenes, round)
        decreases |scenes| - round
      {
        result := ScanForPop(target, part, scenes[round]);
        Concludes(Pop(0, part, target), scenes, result, round);
        if result != Blocked || round == |scenes| - 1 {
          return;
        }
        round := round + 1;
        CastHas(scenes, round);
        Wait(scenes[round]);
      }
    }

    method PopDataBatchById(id: nat, target: Option<State>, part: nat, scenes: seq<Scene>) returns (result: Result, round: nat)
      requires AllPlausible(scenes, part) || part >= |partitions|
      requires scenes != [] && scenes[0].parts == partitions
      modifies this, Cast(scenes)
      ensures result == Result.OutOfRange <==> part >= |old(partitions)|
      ensures part >= |old(partitions)| ==>
                && unchanged(this)
                && forall i, b :: 0 <= i < |scenes| && scenes[i].moments != [] && b in scenes[i].moments[0] ==>
                     b.View() == old(b.View())
      ensures part < |old(partitions)| ==> Served(Fetch(0, part, id, target, false), scenes, result, round)
    {
      round := 0;
      if part >= |partitions| {
        return Result.OutOfRange, 0;
      }
      CastHas(scenes, 0);
      while true
        invariant Standing(Fetch(0, part, id, target, false), scenes, round)
        decreases |scenes| - round
      {
        result := ScanForId(id, target, false, part, scenes[round]);
        Concludes(Fetch(0, part, id, target, false), scenes, result, round);
        if result != Blocked || round == |scenes| - 1 {
          return;
        }
        round := round + 1;
        CastHas(scenes, round);
        Wait(scenes[round]);
      }
    }

    method GetDataBatchById(id: nat, target: Option<State>, part: nat, scenes: seq<Scene>) returns (result: Result, round: nat)
      requires AllPlausible(scenes, part) || part >= |partitions|
      requires scenes != [] && scenes[0].parts == partitions
      modifies this, Cast(scenes)
      ensures result == Result.OutOfRange <==> part >= |old(partitions)|
      ensures part >= |old(partitions)| ==>
                && unchanged(this)
                && forall i, b :: 0 <= i < |scenes| && scenes[i].moments != [] && b in scenes[i].moments[0] ==>
                     b.View() == old(b.View())
      ensures part < |old(partitions)| ==> Served(Fetch(0, part, id, target, true), scenes, result, round)
    {
      round := 0;
      if part >= |partitions| {
        return Result.OutOfRange, 0;
      }
      CastHas(scenes, 0);
      while true
        invariant Standing(Fetch(0, part, id, target, true), scenes, round)
        decreases |scenes| - round
      {
        result := ScanForId(id, target, true, part, scenes[round]);
        Concludes(Fetch(0, part, id, target, true), scenes, result, round);
        if result != Blocked || round == |scenes| - 1 {
          return;
        }
        round := round + 1;
        CastHas(scenes, round);
        Wait(scenes[round]);
      }
    }
  }
}
