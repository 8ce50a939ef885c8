/** Several repositories over one set of batches, used by any number of threads
    (include/data/data_repository.hpp, src/data/data_repository.cpp). A repository's mutex is held
    through a scan and given up while waiting. It does not protect the batches: other threads may
    change a batch between two attempts of a scan, so every attempt is a step of its own. */
module Repositories {
  import opened Prelude
  import opened Batches

  /** `pop_data_batch`, and the two searches by id: `keep` tells `get_data_batch_by_id`, which
      leaves the batch in the repository, from `pop_data_batch_by_id`. */
  datatype Request =
    | Pop(repo: Ref, part: nat, wanted: State)
    | Fetch(repo: Ref, part: nat, id: nat, target: Option<State>, keep: bool)

  /** Where a thread is: in no request; holding the mutex in a scan of `partition`, having looked at
      the first `|met|` batches, which then had the values `met`; or waiting. */
  datatype Client =
    | Outside
    | Scanning(request: Request, partition: seq<Ref>, met: seq<Batch>)
    | Waiting(request: Request)

  datatype Shared = Shared(world: World, repos: map<Ref, seq<seq<Ref>>>, clients: map<Ref, Client>)

  /** What a step makes a request return. */
  datatype Outcome = Quiet | Returned(batch: Ref) | ReturnedNull | OutOfRange | Threw

  datatype RepoOp =
    | DoBatch(op: Op)
    | DoAdd(repo: Ref, part: nat, batch: Ref)
    | DoBegin(client: Ref, request: Request)
    | DoLook(client: Ref)
    | DoWake(client: Ref)

  function InitialShared(repos: set<Ref>): Shared {
    Shared(EMPTY, map r | r in repos :: [[]], map[])
  }

  predicate MutexFree(st: Shared, repo: Ref) {
    forall c :: c in st.clients && st.clients[c].Scanning? ==> st.clients[c].request.repo != repo
  }

  /** `try_transition_batch_for_pop` for the targets it accepts. */
  function Attempt(b: Batch, target: State): (Batch, bool) {
    match target
    case TaskCreated => CreateTask(b)
    case InTransit => LockForInTransit(b)
    case _ => (b, false)
  }

  /** The value a batch had when a scan looked at it did not satisfy the request. */
  predicate PassedOver(q: Request, v: Batch) {
    match q
    case Pop(_, _, wanted) => Attempt(v, wanted) == (v, false)
    case Fetch(_, _, id, _, _) => v.id != id
  }

  predicate Removes(q: Request) {
    q.Pop? || !q.keep
  }

  /** The state a request asks its batch to enter. */
  function Target(q: Request): Option<State> {
    if q.Pop? then Some(q.wanted) else q.target
  }

  // ----- adding -----

  function Resized(parts: seq<seq<Ref>>, part: nat): (s: seq<seq<Ref>>)
    ensures |s| > part && |s| >= |parts| && s[..|parts|] == parts
    ensures forall i :: |parts| <= i < |s| ==> s[i] == []
  {
    if part < |parts| then parts else parts + seq(part + 1 - |parts|, (i: nat) => [])
  }

  function Add(st: Shared, repo: Ref, part: nat, batch: Ref): Shared {
    if repo in st.repos && batch in st.world.batches && MutexFree(st, repo) then
      var parts := Resized(st.repos[repo], part);
      st.(repos := st.repos[repo := parts[part := parts[part] + [batch]]])
    else st
  }

  // ----- looking for a batch -----

  function WithClient(st: Shared, c: Ref, state: Client): Shared {
    st.(clients := st.clients[c := state])
  }

  function Begin(st: Shared, c: Ref, request: Request): (Shared, Outcome) {
    if request.repo !in st.repos || !MutexFree(st, request.repo) || (c in st.clients && !st.clients[c].Outside?) then (st, Quiet)
    else if request.part >= |st.repos[request.repo]| then (st, OutOfRange)
    else (WithClient(st, c, Scanning(request, st.repos[request.repo][request.part], [])), Quiet)
  }

  /** A waiting thread gets the mutex back and starts over. */
  function Wake(st: Shared, c: Ref): Shared {
    if c in st.clients && st.clients[c].Waiting? then
      var request := st.clients[c].request;
      if request.repo in st.repos && request.part < |st.repos[request.repo]| && MutexFree(st, request.repo) then
        WithClient(st, c, Scanning(request, st.repos[request.repo][request.part], []))
      else st
    else st
  }

  /** The request ends by handing out the batch at `index`. */
  function HandOut(st: Shared, c: Ref, q: Request, index: nat): Shared
    requires q.repo in st.repos && q.part < |st.repos[q.repo]| && index < |st.repos[q.repo][q.part]|
  {
    var parts := st.repos[q.repo];
    var st1 := WithClient(st, c, Outside);
    if q.Fetch? && q.keep then st1
    else st1.(repos := st.repos[q.repo := parts[q.part := RemoveAt(parts[q.part], index)]])
  }

  function LookAt(st: Shared, c: Ref, q: Request, r: Ref, k: nat): (Shared, Outcome)
    requires c in st.clients && st.clients[c].Scanning? && r in st.world.batches
    requires q.repo in st.repos && q.part < |st.repos[q.repo]| && k < |st.repos[q.repo][q.part]|
  {
    var v := st.world.batches[r];
    var further := WithClient(st, c, st.clients[c].(met := st.clients[c].met + [v]));
    if q.Fetch? && v.id != q.id then (further, Quiet)
    else if q.Fetch? && q.target.None? then (HandOut(st, c, q, k), Returned(r))
    else
      var wanted := if q.Pop? then q.wanted else q.target.value;
      if wanted.Processing? then (WithClient(st, c, Outside), Threw)
      else
        var (v', ok) := Attempt(v, wanted);
        if ok then (HandOut(st.(world := WithBatch(st.world, r, v')), c, q, k), Returned(r))
        else if q.Pop? then (further, Quiet)
        else (WithClient(st, c, Waiting(q)), Quiet)
  }

  /** One iteration of a scan, or its end. */
  function Look(st: Shared, c: Ref): (Shared, Outcome) {
    if c !in st.clients || !st.clients[c].Scanning? then (st, Quiet)
    else
      var q, k := st.clients[c].request, |st.clients[c].met|;
      if q.repo !in st.repos || q.part >= |st.repos[q.repo]| then (st, Quiet)
      else
        var p := st.repos[q.repo][q.part];
        if k >= |p| then
          if q.Fetch? || p == [] then (WithClient(st, c, Outside), ReturnedNull)
          else (WithClient(st, c, Waiting(q)), Quiet)
        else if p[k] !in st.world.batches then (st, Quiet)
        else LookAt(st, c, q, p[k], k)
  }

  // ----- runs -----

  function Step(st: Shared, op: RepoOp): (Shared, Outcome) {
    match op
    case DoBatch(bop) => (st.(world := Next(st.world, bop)), Quiet)
    case DoAdd(repo, part, batch) => (Add(st, repo, part, batch), Quiet)
    case DoBegin(c, request) => Begin(st, c, request)
    case DoLook(c) => Look(st, c)
    case DoWake(c) => (Wake(st, c), Quiet)
  }

  function Run(st: Shared, ops: seq<RepoOp>): Shared {
    if ops == [] then st else Step(Run(st, ops[..|ops| - 1]), ops[|ops| - 1]).0
  }
}
