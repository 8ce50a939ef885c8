/** What every run of threads over shared repositories keeps, and what a returned batch says about
    the scan that found it. */
module RepositoryInvariants {
  import opened Prelude
  import opened Batches
  import opened Repositories

  /** A scan holds its repository's mutex alone; the partition is as it was when the scan started,
      and everything looked at so far was passed over. */
  predicate ScanSound(st: Shared, c: Ref)
    requires c in st.clients
  {
    st.clients[c].Scanning? ==>
      var q, p, met := st.clients[c].request, st.clients[c].partition, st.clients[c].met;
      && q.repo in st.repos && q.part < |st.repos[q.repo]| && st.repos[q.repo][q.part] == p
      && |met| <= |p|
      && (forall j :: 0 <= j < |met| ==> PassedOver(q, met[j]))
      && (forall j :: 0 <= j < |met| ==> p[j] in st.world.batches && st.world.batches[p[j]].id == met[j].id)
  }

  predicate Exclusive(st: Shared) {
    forall c, d :: c in st.clients && d in st.clients && st.clients[c].Scanning? && st.clients[d].Scanning? && c != d ==>
      st.clients[c].request.repo != st.clients[d].request.repo
  }

  predicate Sensible(st: Shared) {
    && (forall c :: c in st.clients ==> ScanSound(st, c))
    && Exclusive(st)
    && (forall r, p, k :: r in st.repos && 0 <= p < |st.repos[r]| && 0 <= k < |st.repos[r][p]| ==>
          st.repos[r][p][k] in st.world.batches)
  }

  lemma RefusalLeavesBatch(v: Batch, target: State)
    ensures !Attempt(v, target).1 ==> Attempt(v, target).0 == v
    ensures Attempt(v, target).0.id == v.id
  {
  }

  lemma IdsStay(w: World, op: Op, r: Ref)
    requires r in w.batches
    ensures r in Next(w, op).batches && Next(w, op).batches[r].id == w.batches[r].id
  {
  }

  // ----- one lemma a kind of change -----

  lemma WorldKeeps(st: Shared, w: World)
    requires Sensible(st)
    requires forall r :: r in st.world.batches ==> r in w.batches && w.batches[r].id == st.world.batches[r].id
    ensures Sensible(st.(world := w))
  {
    forall c | c in st.clients
      ensures ScanSound(st.(world := w), c)
    {
      assert ScanSound(st, c);
    }
  }

  lemma ClientKeeps(st: Shared, c: Ref, x: Client)
    requires Sensible(st)
    requires x.Scanning? ==>
               && ScanSound(WithClient(st, c, x), c)
               && forall d :: d in st.clients && d != c && st.clients[d].Scanning? ==> st.clients[d].request.repo != x.request.repo
    ensures Sensible(WithClient(st, c, x))
  {
    forall d | d in WithClient(st, c, x).clients
      ensures ScanSound(WithClient(st, c, x), d)
    {
      if d != c { assert ScanSound(st, d); }
    }
  }

  predicate Existing(w: World, parts: seq<seq<Ref>>) {
    forall p, k :: 0 <= p < |parts| && 0 <= k < |parts[p]| ==> parts[p][k] in w.batches
  }

  lemma PartitionsKeep(st: Shared, repo: Ref, parts: seq<seq<Ref>>)
    requires Sensible(st) && repo in st.repos && MutexFree(st, repo) && Existing(st.world, parts)
    ensures Sensible(st.(repos := st.repos[repo := parts]))
  {
    var st' := st.(repos := st.repos[repo := parts]);
    forall c | c in st'.clients
      ensures ScanSound(st', c)
    {
      assert ScanSound(st, c);
    }
  }

  /** The thread that holds the mutex lets go of it by leaving or waiting. */
  lemma LeavingFrees(st: Shared, c: Ref, x: Client)
    requires Sensible(st) && c in st.clients && st.clients[c].Scanning? && !x.Scanning?
    ensures Sensible(WithClient(st, c, x)) && MutexFree(WithClient(st, c, x), st.clients[c].request.repo)
  {
    ClientKeeps(st, c, x);
  }

  lemma AddKeeps(st: Shared, repo: Ref, part: nat, batch: Ref)
    requires Sensible(st)
    ensures Sensible(Add(st, repo, part, batch))
  {
    if repo in st.repos && batch in st.world.batches && MutexFree(st, repo) {
      var parts := Resized(st.repos[repo], part);
      var parts' := parts[part := parts[part] + [batch]];
      forall p, k | 0 <= p < |parts'| && 0 <= k < |parts'[p]|
        ensures parts'[p][k] in st.world.batches
      {
        if p < |st.repos[repo]| {
          assert parts[p] == parts[..|st.repos[repo]|][p] == st.repos[repo][p];
        }
      }
      PartitionsKeep(st, repo, parts');
    }
  }

  lemma HandOutKeeps(st: Shared, c: Ref, q: Request, index: nat)
    requires Sensible(st) && c in st.clients && st.clients[c].Scanning? && st.clients[c].request == q
    requires q.repo in st.repos && q.part < |st.repos[q.repo]| && index < |st.repos[q.repo][q.part]|
    ensures Sensible(HandOut(st, c, q, index))
  {
    LeavingFrees(st, c, Outside);
    var parts := st.repos[q.repo];
    var parts' := parts[q.part := RemoveAt(parts[q.part], index)];
    assert Existing(st.world, parts);
    PartitionsKeep(WithClient(st, c, Outside), q.repo, parts');
  }

  lemma FurtherKeeps(st: Shared, c: Ref, r: Ref, k: nat)
    requires Sensible(st) && c in st.clients && st.clients[c].Scanning? && r in st.world.batches
    requires k == |st.clients[c].met| < |st.clients[c].partition| && st.clients[c].partition[k] == r
    requires PassedOver(st.clients[c].request, st.world.batches[r])
    ensures Sensible(WithClient(st, c, st.clients[c].(met := st.clients[c].met + [st.world.batches[r]])))
  {
    assert ScanSound(st, c);
    ClientKeeps(st, c, st.clients[c].(met := st.clients[c].met + [st.world.batches[r]]));
  }

  lemma LookAtKeeps(st: Shared, c: Ref, q: Request, r: Ref, k: nat)
    requires Sensible(st) && c in st.clients && st.clients[c].Scanning? && st.clients[c].request == q
    requires q.repo in st.repos && q.part < |st.repos[q.repo]| && k == |st.clients[c].met| < |st.repos[q.repo][q.part]|
    requires r == st.repos[q.repo][q.part][k] && r in st.world.batches
    ensures Sensible(LookAt(st, c, q, r, k).0)
  {
    assert ScanSound(st, c);
    var v := st.world.batches[r];
    if q.Fetch? && v.id != q.id {
      FurtherKeeps(st, c, r, k);
    } else if q.Fetch? && q.target.None? {
      HandOutKeeps(st, c, q, k);
    } else {
      var wanted := if q.Pop? then q.wanted else q.target.value;
      RefusalLeavesBatch(v, wanted);
      if wanted.Processing? {
        LeavingFrees(st, c, Outside);
      } else if Attempt(v, wanted).1 {
        WorldKeeps(st, WithBatch(st.world, r, Attempt(v, wanted).0));
        HandOutKeeps(st.(world := WithBatch(st.world, r, Attempt(v, wanted).0)), c, q, k);
      } else if q.Pop? {
        FurtherKeeps(st, c, r, k);
      } else {
        LeavingFrees(st, c, Waiting(q));
      }
    }
  }

  lemma LookKeeps(st: Shared, c: Ref)
    requires Sensible(st)
    ensures Sensible(Look(st, c).0)
  {
    if c in st.clients && st.clients[c].Scanning? {
      assert ScanSound(st, c);
      var q, k := st.clients[c].request, |st.clients[c].met|;
      var p := st.repos[q.repo][q.part];
      if k >= |p| {
        LeavingFrees(st, c, if q.Fetch? || p == [] then Outside else Waiting(q));
      } else {
        LookAtKeeps(st, c, q, p[k], k);
      }
    }
  }

  lemma StartKeeps(st: Shared, c: Ref, request: Request)
    requires Sensible(st) && request.repo in st.repos && request.part < |st.repos[request.repo]| && MutexFree(st, request.repo)
    ensures Sensible(WithClient(st, c, Scanning(request, st.repos[request.repo][request.part], [])))
  {
    ClientKeeps(st, c, Scanning(request, st.repos[request.repo][request.part], []));
  }

  lemma StepKeeps(st: Shared, op: RepoOp)
    requires Sensible(st)
    ensures Sensible(Step(st, op).0)
  {
    match op
    case DoBatch(bop) =>
      forall r | r in st.world.batches
        ensures r in Next(st.world, bop).batches && Next(st.world, bop).batches[r].id == st.world.batches[r].id
      {
        IdsStay(st.world, bop, r);
      }
      WorldKeeps(st, Next(st.world, bop));
    case DoAdd(repo, part, batch) => AddKeeps(st, repo, part, batch);
    case DoBegin(c, request) =>
      if Begin(st, c, request).0 != st { StartKeeps(st, c, request); }
    case DoLook(c) => LookKeeps(st, c);
    case DoWake(c) =>
      if Wake(st, c) != st { StartKeeps(st, c, st.clients[c].request); }
  }

  lemma {:induction false} RunSensible(repos: set<Ref>, ops: seq<RepoOp>)
    ensures Sensible(Run(InitialShared(repos), ops))
  {
    if ops != [] {
      RunSensible(repos, ops[..|ops| - 1]);
      StepKeeps(Run(InitialShared(repos), ops[..|ops| - 1]), ops[|ops| - 1]);
    }
  }
}
