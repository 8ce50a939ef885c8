/** When requests on shared repositories are served and when they wait, told by who holds a batch
    and whether it is in transit, in every interleaving. */
module RepositoryOutcomes {
  import opened Prelude
  import opened Batches
  import opened BatchHistory
  import opened BatchOutcomes
  import opened Repositories
  import opened RepositorySearch
  import opened RepositoryInvariants
  import G = RepositoryGuarantees
  import B = BatchInvariants

  // ----- one uninterrupted scan -----

  /** The state of a batch outside transit is what its counters call for. */
  predicate Settled(v: Batch) {
    && (v.processing > 0 ==> v.state.Processing?)
    && (!v.state.InTransit? ==> v.state == Called(v))
  }

  predicate Available(v: Batch) {
    v.processing == 0 && !v.state.InTransit?
  }

  /** A pop that creates a task takes the first batch that is not in transit, and gives it one task
      more; it waits exactly if all are in transit. */
  lemma PopForTask(part: nat, values: seq<Batch>, k: nat)
    ensures var q := Pop(0, part, TaskCreated);
            && (Judge(q, values) == Accepts(k) <==>
                  k < |values| && !values[k].state.InTransit? && forall j :: 0 <= j < k ==> values[j].state.InTransit?)
            && (Judge(q, values) == KeepWaiting <==>
                  values != [] && forall j :: 0 <= j < |values| ==> values[j].state.InTransit?)
            && (Judge(q, values) == Accepts(k) ==> k < |values| && Taken(q, values[k]).tasks == values[k].tasks + 1)
  {
    PopTakesFirstFit(part, TaskCreated, values, k);
  }

  /** A pop into transit takes the first batch that nobody holds and that is not in transit, and
      puts it in transit; it waits exactly if there is none. */
  lemma PopForTransit(part: nat, values: seq<Batch>, k: nat)
    requires forall j :: 0 <= j < |values| ==> Settled(values[j])
    ensures var q := Pop(0, part, InTransit);
            && (Judge(q, values) == Accepts(k) <==>
                  k < |values| && Available(values[k]) && forall j :: 0 <= j < k ==> !Available(values[j]))
            && (Judge(q, values) == KeepWaiting <==> values != [] && forall j :: 0 <= j < |values| ==> !Available(values[j]))
            && (Judge(q, values) == Accepts(k) ==> k < |values| && Taken(q, values[k]) == values[k].(state := InTransit))
  {
    PopTakesFirstFit(part, InTransit, values, k);
    forall j | 0 <= j < |values|
      ensures Attempt(values[j], InTransit).1 <==> Available(values[j])
    {
    }
  }

  /** No batch is ever popped into idle or processing: the one waits for ever, the other throws. */
  lemma PopForNothing(part: nat, values: seq<Batch>)
    ensures Judge(Pop(0, part, Idle), values) == if values == [] then Nothing else KeepWaiting
    ensures Judge(Pop(0, part, Processing), values) == if values == [] then Nothing else BadTarget
  {
    PopTakesFirstFit(part, Idle, values, 0);
  }

  /** A search finds nothing exactly if no batch has the id. */
  lemma FetchFindsNothing(part: nat, id: nat, target: Option<State>, keep: bool, values: seq<Batch>)
    ensures Judge(Fetch(0, part, id, target, keep), values) == Nothing
            <==> forall j :: 0 <= j < |values| ==> values[j].id != id
    ensures Judge(Fetch(0, part, id, target, keep), values) == BadTarget
            <==> target == Some(Processing) && exists j :: 0 <= j < |values| && values[j].id == id
  {
    var q := Fetch(0, part, id, target, keep);
    var k := FirstCandidate(q, values);
    assert forall j :: 0 <= j < |values| ==> (PassedOver(q, values[j]) <==> values[j].id != id);
    assert k < |values| ==> values[k].id == id;
  }

  // ----- in every interleaving -----

  /** A release from transit by some thread is faithful. */
  predicate FaithfulOp(st: Shared, op: RepoOp) {
    op.DoBatch? ==> ReleasesFaithfully(st.world, op.op)
  }

  ghost predicate FaithfulRun(st: Shared, ops: seq<RepoOp>) {
    ops == [] || (FaithfulRun(st, ops[..|ops| - 1]) && FaithfulOp(Run(st, ops[..|ops| - 1]), ops[|ops| - 1]))
  }

  lemma {:induction false} WorldSound(repos: set<Ref>, ops: seq<RepoOp>)
    ensures B.Sound(Run(InitialShared(repos), ops).world)
  {
    var bops := G.WorldIsBatchRun(repos, ops);
    B.RunSound(bops);
  }

  lemma {:induction false} WorldSettled(repos: set<Ref>, ops: seq<RepoOp>)
    requires FaithfulRun(InitialShared(repos), ops)
    ensures StateFollowsCounters(Run(InitialShared(repos), ops).world)
  {
    if ops != [] {
      var before, op := ops[..|ops| - 1], ops[|ops| - 1];
      var st := Run(InitialShared(repos), before);
      WorldSettled(repos, before);
      WorldSound(repos, before);
      var bop := G.StepIsBatchRun(st, op);
      if bop.Some? { FaithfulStep(st.world, bop.value); }
    }
  }

  lemma {:induction false} FaithfulPrefix(st: Shared, ops: seq<RepoOp>, n: nat)
    requires n <= |ops| && FaithfulRun(st, ops)
    ensures FaithfulRun(st, ops[..n])
  {
    if n < |ops| {
      FaithfulPrefix(st, ops[..|ops| - 1], n);
      assert ops[..|ops| - 1][..n] == ops[..n];
    } else {
      assert ops[..n] == ops;
    }
  }

  /** The batch can be taken into transit. */
  predicate Free(w: World, r: Ref) {
    r in w.batches && !Held(w, r) && !w.batches[r].state.InTransit?
  }

  predicate Travelling(w: World, r: Ref) {
    r in w.batches && w.batches[r].state.InTransit?
  }

  /** At a moment of this scan, when it came to position `j`, the batch there was in transit. */
  ghost predicate WasTravelling(repos: set<Ref>, ops: seq<RepoOp>, c: Ref, j: nat) {
    exists i: nat :: i < |ops| && G.MetAt(repos, ops, c, j, i)
      && Travelling(G.After(repos, ops, i).world, G.After(repos, ops, i).clients[c].partition[j])
  }

  /** At that moment it was held, or in transit. */
  ghost predicate WasTaken(repos: set<Ref>, ops: seq<RepoOp>, c: Ref, j: nat) {
    exists i: nat :: i < |ops| && G.MetAt(repos, ops, c, j, i)
      && !Free(G.After(repos, ops, i).world, G.After(repos, ops, i).clients[c].partition[j])
  }

  lemma RefusedForTask(repos: set<Ref>, ops: seq<RepoOp>, c: Ref, j: nat)
    requires var st := Run(InitialShared(repos), ops);
             G.Scans(st, c) && st.clients[c].request.Pop? && st.clients[c].request.wanted.TaskCreated? && j < |st.clients[c].met|
    ensures WasTravelling(repos, ops, c, j)
  {
    G.MetWerePassed(repos, ops, c, j);
    var i: nat :| i < |ops| && G.MetAt(repos, ops, c, j, i)
      && PassedOver(G.After(repos, ops, i).clients[c].request,
                    G.After(repos, ops, i).world.batches[G.After(repos, ops, i).clients[c].partition[j]]);
    assert ops[..|ops|] == ops;
    assert G.SameScan(G.After(repos, ops, |ops|).clients[c], G.After(repos, ops, i).clients[c]);
  }

  lemma LockedUnlessTaken(w: World, r: Ref)
    requires B.Sound(w) && StateFollowsCounters(w) && r in w.batches
    ensures Attempt(w.batches[r], InTransit).1 <==> Free(w, r)
  {
    HeldIffCounted(w, r);
  }

  lemma RefusedForTransit(repos: set<Ref>, ops: seq<RepoOp>, c: Ref, j: nat)
    requires FaithfulRun(InitialShared(repos), ops)
    requires var st := Run(InitialShared(repos), ops);
             G.Scans(st, c) && st.clients[c].request.Pop? && st.clients[c].request.wanted.InTransit? && j < |st.clients[c].met|
    ensures WasTaken(repos, ops, c, j)
  {
    G.MetWerePassed(repos, ops, c, j);
    var i: nat :| i < |ops| && G.MetAt(repos, ops, c, j, i)
      && PassedOver(G.After(repos, ops, i).clients[c].request,
                    G.After(repos, ops, i).world.batches[G.After(repos, ops, i).clients[c].partition[j]]);
    assert ops[..|ops|] == ops;
    var past := G.After(repos, ops, i);
    assert G.SameScan(G.After(repos, ops, |ops|).clients[c], past.clients[c]);
    FaithfulPrefix(InitialShared(repos), ops, i);
    WorldSettled(repos, ops[..i]);
    WorldSound(repos, ops[..i]);
    LockedUnlessTaken(past.world, past.clients[c].partition[j]);
  }

  /** A pop that creates a task is served by the first batch it finds not in transit, and waits only
      if each batch of the partition was in transit when the scan came to it. */
  lemma TaskPopServed(repos: set<Ref>, ops: seq<RepoOp>, c: Ref)
    requires var st := Run(InitialShared(repos), ops);
             G.Scans(st, c) && st.clients[c].request.Pop? && st.clients[c].request.wanted.TaskCreated?
    ensures var st := Run(InitialShared(repos), ops);
            var p, k := st.clients[c].partition, |st.clients[c].met|;
            var (st', out) := Look(st, c);
            && (forall j :: 0 <= j < k ==> WasTravelling(repos, ops, c, j))
            && (k < |p| ==> (out == Returned(p[k]) <==> !Travelling(st.world, p[k])))
            && (c in st'.clients && st'.clients[c].Waiting? <==> k == |p| > 0)
            && (out == ReturnedNull <==> p == [])
  {
    RunSensible(repos, ops);
    assert ScanSound(Run(InitialShared(repos), ops), c);
    forall j | 0 <= j < |Run(InitialShared(repos), ops).clients[c].met|
      ensures WasTravelling(repos, ops, c, j)
    {
      RefusedForTask(repos, ops, c, j);
    }
  }

  /** A pop into transit, if releases from transit are faithful, is served by the first batch it finds
      neither held nor in transit, and waits only if each was one of the two when the scan came to it. */
  lemma TransitPopServed(repos: set<Ref>, ops: seq<RepoOp>, c: Ref)
    requires FaithfulRun(InitialShared(repos), ops)
    requires var st := Run(InitialShared(repos), ops);
             G.Scans(st, c) && st.clients[c].request.Pop? && st.clients[c].request.wanted.InTransit?
    ensures var st := Run(InitialShared(repos), ops);
            var p, k := st.clients[c].partition, |st.clients[c].met|;
            var (st', out) := Look(st, c);
            && (forall j :: 0 <= j < k ==> WasTaken(repos, ops, c, j))
            && (k < |p| ==> (out == Returned(p[k]) <==> Free(st.world, p[k])))
            && (c in st'.clients && st'.clients[c].Waiting? <==> k == |p| > 0)
            && (out == ReturnedNull <==> p == [])
  {
    var st := Run(InitialShared(repos), ops);
    RunSensible(repos, ops);
    WorldSettled(repos, ops);
    WorldSound(repos, ops);
    assert ScanSound(st, c);
    var p, k := st.clients[c].partition, |st.clients[c].met|;
    if k < |p| { LockedUnlessTaken(st.world, p[k]); }
    forall j | 0 <= j < k
      ensures WasTaken(repos, ops, c, j)
    {
      RefusedForTransit(repos, ops, c, j);
    }
  }

  predicate AtMatch(st: Shared, c: Ref) {
    && G.Scans(st, c) && st.clients[c].request.Fetch? && |st.clients[c].met| < |st.clients[c].partition|
    && var r := st.clients[c].partition[|st.clients[c].met|];
       r in st.world.batches && st.world.batches[r].id == st.clients[c].request.id
  }

  lemma LooksAtMatch(st: Shared, c: Ref)
    requires Sensible(st) && AtMatch(st, c)
    ensures var q, k := st.clients[c].request, |st.clients[c].met|;
            && q.repo in st.repos && q.part < |st.repos[q.repo]| && k < |st.repos[q.repo][q.part]|
            && Look(st, c) == LookAt(st, c, q, st.clients[c].partition[k], k)
  {
    assert ScanSound(st, c);
  }

  /** What a search needs of the batch it is about. */
  predicate Agrees(st: Shared, q: Request, r: Ref)
    requires q.Fetch?
  {
    || q.target.None?
    || (q.target == Some(TaskCreated) && !Travelling(st.world, r))
    || (q.target == Some(InTransit) && Free(st.world, r))
  }

  lemma MatchDecides(st: Shared, c: Ref, r: Ref)
    requires Sensible(st) && AtMatch(st, c) && r == st.clients[c].partition[|st.clients[c].met|]
    requires Attempt(st.world.batches[r], InTransit).1 <==> Free(st.world, r)
    ensures var q, (st', out) := st.clients[c].request, Look(st, c);
            && (out == Returned(r) <==> Agrees(st, q, r))
            && (out == Threw <==> q.target == Some(Processing))
            && (!out.Returned? && !out.Threw? ==> out == Quiet && c in st'.clients && st'.clients[c] == Waiting(q))
  {
    LooksAtMatch(st, c);
  }

  /** A search for an id, at the first batch that has it: it is served exactly if no target is named,
      or a task is asked for and the batch is not in transit, or transit is asked for and it is free. */
  lemma FetchServed(repos: set<Ref>, ops: seq<RepoOp>, c: Ref, r: Ref)
    requires FaithfulRun(InitialShared(repos), ops) && AtMatch(Run(InitialShared(repos), ops), c)
    requires var client := Run(InitialShared(repos), ops).clients[c]; r == client.partition[|client.met|]
    ensures var st := Run(InitialShared(repos), ops);
            var q, (st', out) := st.clients[c].request, Look(st, c);
            && (out == Returned(r) <==> Agrees(st, q, r))
            && (out == Threw <==> q.target == Some(Processing))
            && (!out.Returned? && !out.Threw? ==> out == Quiet && c in st'.clients && st'.clients[c] == Waiting(q))
  {
    RunSensible(repos, ops);
    WorldSettled(repos, ops);
    WorldSound(repos, ops);
    LockedUnlessTaken(Run(InitialShared(repos), ops).world, r);
    MatchDecides(Run(InitialShared(repos), ops), c, r);
  }

  /** A request of a thread in none, and a waiting request that wakes up, scan the partition from its
      first batch as it is now, if the mutex is free; a request for a partition that does not exist
      is out of range. */
  lemma ScanStarts(st: Shared, c: Ref, q: Request)
    requires q.repo in st.repos && MutexFree(st, q.repo)
    ensures (c !in st.clients || st.clients[c].Outside?) ==>
              var (st', out) := Begin(st, c, q);
              && (out == OutOfRange <==> q.part >= |st.repos[q.repo]|)
              && (out == OutOfRange ==> st' == st)
              && (out != OutOfRange ==>
                    && out == Quiet && G.Scans(st', c)
                    && st'.clients[c] == Scanning(q, G.Contents(st, q.repo, q.part), [])
                    && st' == st.(clients := st'.clients))
    ensures c in st.clients && st.clients[c] == Waiting(q) && q.part < |st.repos[q.repo]| ==>
              var st' := Wake(st, c);
              && G.Scans(st', c) && st'.clients[c] == Scanning(q, G.Contents(st, q.repo, q.part), [])
              && st' == st.(clients := st'.clients)
  {
  }
}
