/** What callers of shared repositories may rely on after any run: first-fit order, conservation
    of every partition's contents, and exclusion while a batch is in transit. */
module RepositoryGuarantees {
  import opened Prelude
  import opened Batches
  import opened Repositories
  import opened RepositoryInvariants
  import BatchInvariants
  import BatchHistory

  predicate Scans(st: Shared, c: Ref) {
    c in st.clients && st.clients[c].Scanning?
  }

  // ----- what a scan met -----

  /** A step leaves a scan with what it has met, or adds the value of the batch it looks at. */
  lemma StepMeets(st: Shared, op: RepoOp, c: Ref)
    requires Sensible(st) && Scans(Step(st, op).0, c) && Step(st, op).0.clients[c].met != []
    ensures Scans(st, c)
    ensures var x, y := st.clients[c], Step(st, op).0.clients[c];
            && y.request == x.request && y.partition == x.partition
            && (y.met == x.met
                || (|x.met| < |x.partition| && x.partition[|x.met|] in st.world.batches
                    && y.met == x.met + [st.world.batches[x.partition[|x.met|]]]))
  {
    if c in st.clients { assert ScanSound(st, c); }
  }

  function After(repos: set<Ref>, ops: seq<RepoOp>, n: nat): Shared
    requires n <= |ops|
  {
    Run(InitialShared(repos), ops[..n])
  }

  /** `x` is where the scan of `c` that is in progress after `ops` stood at an earlier time. */
  predicate SameScan(now: Client, x: Client) {
    && now.Scanning? && x.Scanning? && x.request == now.request && x.partition == now.partition
    && x.met <= now.met
  }

  /** After `i` steps of the run the scan had come to position `j`, and the batch there had the
      value recorded; the scan has been in progress ever since. */
  ghost predicate MetAt(repos: set<Ref>, ops: seq<RepoOp>, c: Ref, j: nat, i: nat)
    requires i < |ops|
  {
    var now, past := After(repos, ops, |ops|), After(repos, ops, i);
    && (forall n {:trigger After(repos, ops, n)} :: i <= n <= |ops| ==>
          c in After(repos, ops, n).clients && c in now.clients && SameScan(now.clients[c], After(repos, ops, n).clients[c]))
    && j < |now.clients[c].met| && |past.clients[c].met| == j < |now.clients[c].partition|
    && now.clients[c].partition[j] in past.world.batches
    && now.clients[c].met[j] == past.world.batches[now.clients[c].partition[j]]
  }

  lemma AfterPrefix(repos: set<Ref>, ops: seq<RepoOp>, m: nat)
    requires m <= |ops|
    ensures forall n: nat :: n <= m ==> After(repos, ops[..m], n) == After(repos, ops, n)
  {
    forall n: nat | n <= m
      ensures After(repos, ops[..m], n) == After(repos, ops, n)
    {
      assert ops[..m][..n] == ops[..n];
    }
  }

  /** Extending a run by a step that leaves the scan in progress. */
  lemma MetAtLater(repos: set<Ref>, ops: seq<RepoOp>, c: Ref, j: nat, i: nat)
    requires ops != [] && i < |ops| - 1 && MetAt(repos, ops[..|ops| - 1], c, j, i)
    requires c in After(repos, ops, |ops|).clients && c in After(repos, ops, |ops| - 1).clients
    requires SameScan(After(repos, ops, |ops|).clients[c], After(repos, ops, |ops| - 1).clients[c])
    ensures MetAt(repos, ops, c, j, i)
  {
    var m := |ops| - 1;
    AfterPrefix(repos, ops, m);
    var now, was := After(repos, ops, |ops|), After(repos, ops, m);
    assert was == After(repos, ops[..m], m);
    forall n | i <= n <= |ops|
      ensures c in After(repos, ops, n).clients && SameScan(now.clients[c], After(repos, ops, n).clients[c])
    {
      if n <= m {
        assert After(repos, ops, n) == After(repos, ops[..m], n);
        assert SameScan(was.clients[c], After(repos, ops, n).clients[c]);
      }
    }
  }

  /** The last step of the run looked at position `j`. */
  lemma MetJustNow(repos: set<Ref>, ops: seq<RepoOp>, c: Ref, j: nat)
    requires ops != [] && c in After(repos, ops, |ops|).clients && c in After(repos, ops, |ops| - 1).clients
    requires SameScan(After(repos, ops, |ops|).clients[c], After(repos, ops, |ops| - 1).clients[c])
    requires var x, y := After(repos, ops, |ops| - 1), After(repos, ops, |ops|);
             var p := x.clients[c].partition;
             && |x.clients[c].met| == j < |p| && p[j] in x.world.batches
             && y.clients[c].met == x.clients[c].met + [x.world.batches[p[j]]]
    ensures MetAt(repos, ops, c, j, |ops| - 1)
  {
  }

  /** Every value a scan has recorded is the value the batch in that position really had when the
      scan came to it. */
  lemma {:induction false} MetIsHistory(repos: set<Ref>, ops: seq<RepoOp>, c: Ref, j: nat) returns (i: nat)
    requires Scans(Run(InitialShared(repos), ops), c) && j < |Run(InitialShared(repos), ops).clients[c].met|
    ensures i < |ops| && MetAt(repos, ops, c, j, i)
  {
    var m := |ops| - 1;
    var before := Run(InitialShared(repos), ops[..m]);
    RunSensible(repos, ops[..m]);
    StepMeets(before, ops[m], c);
    assert ops[..|ops|] == ops;
    if j < |before.clients[c].met| {
      i := MetIsHistory(repos, ops[..m], c, j);
      MetAtLater(repos, ops, c, j, i);
    } else {
      i := m;
      MetJustNow(repos, ops, c, j);
    }
  }

  /** The batch in position `j` was passed over: at a moment of this scan it had a value that did
      not satisfy the request. */
  ghost predicate PassedDuringScan(repos: set<Ref>, ops: seq<RepoOp>, c: Ref, j: nat) {
    exists i: nat :: i < |ops| && MetAt(repos, ops, c, j, i)
      && PassedOver(After(repos, ops, i).clients[c].request,
                    After(repos, ops, i).world.batches[After(repos, ops, i).clients[c].partition[j]])
  }

  lemma MetWerePassed(repos: set<Ref>, ops: seq<RepoOp>, c: Ref, j: nat)
    requires Scans(Run(InitialShared(repos), ops), c) && j < |Run(InitialShared(repos), ops).clients[c].met|
    ensures PassedDuringScan(repos, ops, c, j)
  {
    var i := MetIsHistory(repos, ops, c, j);
    RunSensible(repos, ops);
    assert ops[..|ops|] == ops;
    assert ScanSound(Run(InitialShared(repos), ops), c);
    assert SameScan(After(repos, ops, |ops|).clients[c], After(repos, ops, i).clients[c]);
  }

  // ----- first fit -----

  lemma HandOutTakes(st: Shared, c: Ref, q: Request, k: nat)
    requires q.repo in st.repos && q.part < |st.repos[q.repo]| && k < |st.repos[q.repo][q.part]|
    ensures var p := st.repos[q.repo][q.part];
            var st' := HandOut(st, c, q, k);
            && st'.world == st.world
            && st'.repos == (if Removes(q) then st.repos[q.repo := st.repos[q.repo][q.part := p[..k] + p[k + 1..]]] else st.repos)
  {
  }

  /** A pop hands out the lowest-index batch that accepted the transition during the final scan.
      All earlier ones were refused it when the scan came to them, with the value they had at that
      moment of the run; the batch itself has made
      exactly the transition asked for, no other batch has changed, and what stays in the partition
      keeps its order. */
  lemma PopIsFirstFit(repos: set<Ref>, ops: seq<RepoOp>, c: Ref, r: Ref)
    requires var st := Run(InitialShared(repos), ops);
             Scans(st, c) && st.clients[c].request.Pop? && Look(st, c).1 == Returned(r)
    ensures var st := Run(InitialShared(repos), ops);
            var st' := Look(st, c).0;
            var q, p, met := st.clients[c].request, st.clients[c].partition, st.clients[c].met;
            var k := |met|;
            && k < |p| && p[k] == r
            && q.repo in st.repos && q.part < |st.repos[q.repo]| && st.repos[q.repo][q.part] == p
            && (forall j :: 0 <= j < k ==> Attempt(met[j], q.wanted) == (met[j], false))
            && (forall j :: 0 <= j < k ==> PassedDuringScan(repos, ops, c, j))
            && r in st.world.batches && Attempt(st.world.batches[r], q.wanted).1
            && st'.world == WithBatch(st.world, r, Attempt(st.world.batches[r], q.wanted).0)
            && st'.repos == st.repos[q.repo := st.repos[q.repo][q.part := p[..k] + p[k + 1..]]]
  {
    var st := Run(InitialShared(repos), ops);
    RunSensible(repos, ops);
    assert ScanSound(st, c);
    var q, p, k := st.clients[c].request, st.clients[c].partition, |st.clients[c].met|;
    HandOutTakes(st.(world := WithBatch(st.world, r, Attempt(st.world.batches[p[k]], q.wanted).0)), c, q, k);
    forall j | 0 <= j < k
      ensures PassedDuringScan(repos, ops, c, j)
    {
      MetWerePassed(repos, ops, c, j);
    }
  }

  /** A search by id hands out the first batch of the partition with that id, after the transition
      asked for, and removes exactly it unless the caller only wanted a copy. */
  lemma FetchFindsFirst(repos: set<Ref>, ops: seq<RepoOp>, c: Ref, r: Ref)
    requires var st := Run(InitialShared(repos), ops);
             Scans(st, c) && st.clients[c].request.Fetch? && Look(st, c).1 == Returned(r)
    ensures var st := Run(InitialShared(repos), ops);
            var st' := Look(st, c).0;
            var q, p, k := st.clients[c].request, st.clients[c].partition, |st.clients[c].met|;
            && k < |p| && p[k] == r
            && (forall j :: 0 <= j <= k ==> p[j] in st.world.batches)
            && (forall j :: 0 <= j < k ==> st.world.batches[p[j]].id != q.id) && st.world.batches[r].id == q.id
            && (q.target.Some? ==> Attempt(st.world.batches[r], q.target.value).1)
            && st'.world == (if q.target.Some? then WithBatch(st.world, r, Attempt(st.world.batches[r], q.target.value).0) else st.world)
            && q.repo in st.repos && q.part < |st.repos[q.repo]| && st.repos[q.repo][q.part] == p
            && st'.repos == (if q.keep then st.repos else st.repos[q.repo := st.repos[q.repo][q.part := p[..k] + p[k + 1..]]])
  {
    var st := Run(InitialShared(repos), ops);
    RunSensible(repos, ops);
    assert ScanSound(st, c);
    var q, p, k := st.clients[c].request, st.clients[c].partition, |st.clients[c].met|;
    HandOutTakes(st, c, q, k);
    if q.target.Some? {
      HandOutTakes(st.(world := WithBatch(st.world, r, Attempt(st.world.batches[p[k]], q.target.value).0)), c, q, k);
    }
  }

  /** A look that hands out nothing changes no batch and no partition. A pop goes to sleep only
      after every batch of a nonempty partition refused it, and it returns null only if the
      partition is empty; a search by id returns null only if no batch has the id. */
  lemma GivesUpOnlyAfterRefusals(repos: set<Ref>, ops: seq<RepoOp>, c: Ref)
    requires Scans(Run(InitialShared(repos), ops), c)
    ensures var st := Run(InitialShared(repos), ops);
            var q, p, met := st.clients[c].request, st.clients[c].partition, st.clients[c].met;
            && (!Look(st, c).1.Returned? ==> Look(st, c).0.world == st.world && Look(st, c).0.repos == st.repos)
            && (Look(st, c).1 == ReturnedNull && q.Pop? ==> p == [])
            && (Look(st, c).1 == ReturnedNull && q.Fetch? ==>
                  forall j :: 0 <= j < |p| ==> p[j] in st.world.batches && st.world.batches[p[j]].id != q.id)
            && (q.Pop? && c in Look(st, c).0.clients && Look(st, c).0.clients[c].Waiting? ==>
                  |met| == |p| > 0 && forall j :: 0 <= j < |p| ==>
                    !Attempt(met[j], q.wanted).1 && PassedDuringScan(repos, ops, c, j))
  {
    var st := Run(InitialShared(repos), ops);
    RunSensible(repos, ops);
    assert ScanSound(st, c);
    forall j | 0 <= j < |st.clients[c].met|
      ensures PassedDuringScan(repos, ops, c, j)
    {
      MetWerePassed(repos, ops, c, j);
    }
  }

  // ----- conservation -----

  function Contents(st: Shared, repo: Ref, part: nat): seq<Ref> {
    if repo in st.repos && part < |st.repos[repo]| then st.repos[repo][part] else []
  }

  function Entered(st: Shared, op: RepoOp, repo: Ref, part: nat): multiset<Ref> {
    if op.DoAdd? && op.repo == repo && op.part == part
       && repo in st.repos && op.batch in st.world.batches && MutexFree(st, repo)
    then multiset{op.batch} else multiset{}
  }

  function Departed(st: Shared, op: RepoOp, repo: Ref, part: nat): multiset<Ref> {
    if op.DoLook? && Scans(st, op.client) && Look(st, op.client).1.Returned?
       && Removes(st.clients[op.client].request)
       && st.clients[op.client].request.repo == repo && st.clients[op.client].request.part == part
    then multiset{Look(st, op.client).1.batch} else multiset{}
  }

  function EnteredIn(st: Shared, ops: seq<RepoOp>, repo: Ref, part: nat): multiset<Ref> {
    if ops == [] then multiset{}
    else EnteredIn(st, ops[..|ops| - 1], repo, part) + Entered(Run(st, ops[..|ops| - 1]), ops[|ops| - 1], repo, part)
  }

  function DepartedIn(st: Shared, ops: seq<RepoOp>, repo: Ref, part: nat): multiset<Ref> {
    if ops == [] then multiset{}
    else DepartedIn(st, ops[..|ops| - 1], repo, part) + Departed(Run(st, ops[..|ops| - 1]), ops[|ops| - 1], repo, part)
  }

  lemma RemoveOne(s: seq<Ref>, k: nat)
    requires k < |s|
    ensures multiset(RemoveAt(s, k)) + multiset{s[k]} == multiset(s)
  {
    assert s == s[..k] + [s[k]] + s[k + 1..];
  }

  lemma AddConserves(st: Shared, r: Ref, n: nat, batch: Ref, repo: Ref, part: nat)
    ensures Contents(Add(st, r, n, batch), repo, part)
            == Contents(st, repo, part)
               + if r == repo && n == part && r in st.repos && batch in st.world.batches && MutexFree(st, r) then [batch] else []
  {
    if r in st.repos && batch in st.world.batches && MutexFree(st, r) {
      var parts := Resized(st.repos[r], n);
      if part < |st.repos[r]| {
        assert parts[part] == parts[..|st.repos[r]|][part] == st.repos[r][part];
      }
    }
  }

  /** A look that hands out a batch takes the one it looked at; any other look takes none. */
  lemma LookTakes(st: Shared, c: Ref)
    requires Sensible(st) && Scans(st, c)
    ensures var q, k := st.clients[c].request, |st.clients[c].met|;
            && q.repo in st.repos && q.part < |st.repos[q.repo]|
            && var p := st.repos[q.repo][q.part];
               if Look(st, c).1.Returned? && Removes(q) then
                 && k < |p| && p[k] == Look(st, c).1.batch
                 && Look(st, c).0.repos == st.repos[q.repo := st.repos[q.repo][q.part := RemoveAt(p, k)]]
               else Look(st, c).0.repos == st.repos
  {
    assert ScanSound(st, c);
  }

  lemma LookConserves(st: Shared, c: Ref, repo: Ref, part: nat)
    requires Sensible(st)
    ensures multiset(Contents(Look(st, c).0, repo, part)) + Departed(st, DoLook(c), repo, part)
            == multiset(Contents(st, repo, part))
  {
    if Scans(st, c) {
      LookTakes(st, c);
      var q, k := st.clients[c].request, |st.clients[c].met|;
      if Look(st, c).1.Returned? && Removes(q) && q.repo == repo && q.part == part {
        RemoveOne(st.repos[q.repo][q.part], k);
        assert Contents(Look(st, c).0, repo, part) == RemoveAt(st.repos[q.repo][q.part], k);
      } else {
        assert Contents(Look(st, c).0, repo, part) == Contents(st, repo, part);
      }
    }
  }

  /** Only adding and looking touch partitions. */
  lemma OthersConserve(st: Shared, op: RepoOp)
    requires !op.DoAdd? && !op.DoLook?
    ensures Step(st, op).0.repos == st.repos
  {
  }

  lemma StepConserves(st: Shared, op: RepoOp, repo: Ref, part: nat)
    requires Sensible(st)
    ensures multiset(Contents(Step(st, op).0, repo, part)) + Departed(st, op, repo, part)
            == multiset(Contents(st, repo, part)) + Entered(st, op, repo, part)
  {
    match op
    case DoAdd(r, n, batch) => AddConserves(st, r, n, batch, repo, part);
    case DoLook(c) => LookConserves(st, c, repo, part);
    case _ => OthersConserve(st, op);
  }

  lemma Balance(e: multiset<Ref>, d: multiset<Ref>, m: multiset<Ref>, e1: multiset<Ref>, d1: multiset<Ref>, m1: multiset<Ref>)
    requires e == d + m && m1 + d1 == m + e1
    ensures e + e1 == d + d1 + m1
  {
    assert e + e1 == d + (m + e1);
  }

  /** Every partition of every repository, over every run: what was added is what was popped plus
      what is still there, counted with multiplicity. Resizing loses and invents nothing. */
  lemma {:induction false} PartitionConserved(repos: set<Ref>, ops: seq<RepoOp>, repo: Ref, part: nat)
    ensures EnteredIn(InitialShared(repos), ops, repo, part)
            == DepartedIn(InitialShared(repos), ops, repo, part)
               + multiset(Contents(Run(InitialShared(repos), ops), repo, part))
  {
    var st := InitialShared(repos);
    if ops == [] {
      assert Contents(st, repo, part) == [];
    } else {
      var before, op := ops[..|ops| - 1], ops[|ops| - 1];
      var now := Run(st, before);
      PartitionConserved(repos, before, repo, part);
      RunSensible(repos, before);
      StepConserves(now, op, repo, part);
      Balance(EnteredIn(st, before, repo, part), DepartedIn(st, before, repo, part), multiset(Contents(now, repo, part)),
              Entered(now, op, repo, part), Departed(now, op, repo, part), multiset(Contents(Step(now, op).0, repo, part)));
    }
  }

  // ----- exclusion -----

  /** What a repository step does to the batches is itself a run of batch operations. */
  lemma StepIsBatchRun(st: Shared, op: RepoOp) returns (bop: Option<Op>)
    ensures Step(st, op).0.world == if bop.Some? then Next(st.world, bop.value) else st.world
    ensures bop.Some? && bop.value.OpReleaseInTransit? ==> op.DoBatch? && op.op == bop.value
  {
    if op.DoBatch? {
      bop := Some(op.op);
    } else if op.DoLook? && Look(st, op.client).0.world != st.world {
      var q := st.clients[op.client].request;
      var r := st.repos[q.repo][q.part][|st.clients[op.client].met|];
      bop := Some(if (if q.Pop? then q.wanted else q.target.value).TaskCreated? then OpCreateTask(r) else OpLockInTransit(r));
    } else {
      bop := None;
    }
  }

  /** So everything proved about runs of batch operations holds of batches in repositories. */
  lemma {:induction false} WorldIsBatchRun(repos: set<Ref>, ops: seq<RepoOp>) returns (bops: seq<Op>)
    ensures Run(InitialShared(repos), ops).world == Exec(EMPTY, bops)
  {
    if ops == [] {
      bops := [];
    } else {
      var before := WorldIsBatchRun(repos, ops[..|ops| - 1]);
      var bop := StepIsBatchRun(Run(InitialShared(repos), ops[..|ops| - 1]), ops[|ops| - 1]);
      bops := if bop.Some? then before + [bop.value] else before;
      assert bop.Some? ==> bops[..|bops| - 1] == before;
    }
  }

  predicate ReleasesTransit(op: RepoOp, r: Ref) {
    op.DoBatch? && op.op.OpReleaseInTransit? && op.op.batch == r
  }

  predicate Guarded(w: World, r: Ref) {
    r in w.batches && w.batches[r].state.InTransit?
  }

  lemma TransitStays(w: World, op: Op, r: Ref)
    requires BatchInvariants.Sound(w) && Guarded(w, r) && !(op.OpReleaseInTransit? && op.batch == r)
    ensures Guarded(Next(w, op), r)
  {
    BatchHistory.StepActsOn(w, op, r);
  }

  lemma {:induction false} GuardedThroughout(st: Shared, more: seq<RepoOp>, r: Ref)
    requires BatchInvariants.Sound(st.world) && Guarded(st.world, r)
    requires forall i :: 0 <= i < |more| ==> !ReleasesTransit(more[i], r)
    ensures BatchInvariants.Sound(Run(st, more).world) && Guarded(Run(st, more).world, r)
  {
    if more != [] {
      GuardedThroughout(st, more[..|more| - 1], r);
      var before := Run(st, more[..|more| - 1]);
      var bop := StepIsBatchRun(before, more[|more| - 1]);
      if bop.Some? {
        TransitStays(before.world, bop.value, r);
        BatchInvariants.NextSound(before.world, bop.value);
      }
    }
  }

  /** A look that hands out a batch which is in transit belongs to a search without target. */
  lemma GuardedNotHandedOut(st: Shared, d: Ref, r: Ref)
    requires Guarded(st.world, r) && Look(st, d).1 == Returned(r)
    ensures Scans(st, d) && Target(st.clients[d].request).None?
  {
  }

  /** Nobody else can get at a batch in transit. */
  ghost predicate Untouchable(w: World, r: Ref) {
    && Guarded(w, r)
    && (forall h :: h in w.handles && w.handles[h].Holding? ==> w.handles[h].batch != r)
    && !CreateTask(w.batches[r]).1 && !LockForInTransit(w.batches[r]).1
    && (forall space: SpaceId :: !LockForProcessing(w.batches[r], space).1.Locked?)
  }

  lemma GuardedUntouchable(w: World, r: Ref)
    requires BatchInvariants.Sound(w) && Guarded(w, r)
    ensures Untouchable(w, r)
  {
    BatchInvariants.UncountedMeansFree(w, r);
  }

  lemma LookSound(st: Shared, c: Ref)
    requires BatchInvariants.Sound(st.world)
    ensures BatchInvariants.Sound(Look(st, c).0.world)
  {
    var bop := StepIsBatchRun(st, DoLook(c));
    if bop.Some? { BatchInvariants.NextSound(st.world, bop.value); }
  }

  lemma HandedOutGuarded(st: Shared, c: Ref, r: Ref)
    requires Scans(st, c) && Look(st, c).1 == Returned(r) && Target(st.clients[c].request) == Some(InTransit)
    ensures Guarded(Look(st, c).0.world, r)
  {
  }

  lemma TakenIntoTransit(repos: set<Ref>, ops: seq<RepoOp>, c: Ref, r: Ref)
    requires Scans(Run(InitialShared(repos), ops), c)
    requires Look(Run(InitialShared(repos), ops), c).1 == Returned(r)
    requires Target(Run(InitialShared(repos), ops).clients[c].request) == Some(InTransit)
    ensures var st1 := Look(Run(InitialShared(repos), ops), c).0;
            BatchInvariants.Sound(st1.world) && Guarded(st1.world, r)
  {
    var st := Run(InitialShared(repos), ops);
    var bops := WorldIsBatchRun(repos, ops);
    BatchInvariants.RunSound(bops);
    LookSound(st, c);
    HandedOutGuarded(st, c, r);
  }

  /** A batch handed out in transit is exclusively the caller's until it is released: whatever
      other threads do meanwhile, through this or any other repository that shares it, no request
      that names a target state gets it, nobody holds a processing handle on it, and it can be
      neither given a task nor locked. */
  lemma TransitExclusion(repos: set<Ref>, ops: seq<RepoOp>, c: Ref, r: Ref, more: seq<RepoOp>, d: Ref)
    requires Scans(Run(InitialShared(repos), ops), c)
    requires Look(Run(InitialShared(repos), ops), c).1 == Returned(r)
    requires Target(Run(InitialShared(repos), ops).clients[c].request) == Some(InTransit)
    requires forall i :: 0 <= i < |more| ==> !ReleasesTransit(more[i], r)
    ensures var st' := Run(Look(Run(InitialShared(repos), ops), c).0, more);
            && Untouchable(st'.world, r)
            && (Look(st', d).1 == Returned(r) ==> Scans(st', d) && Target(st'.clients[d].request).None?)
  {
    TakenIntoTransit(repos, ops, c, r);
    var st1 := Look(Run(InitialShared(repos), ops), c).0;
    GuardedThroughout(st1, more, r);
    var st' := Run(st1, more);
    GuardedUntouchable(st'.world, r);
    if Look(st', d).1 == Returned(r) { GuardedNotHandedOut(st', d, r); }
  }
}
