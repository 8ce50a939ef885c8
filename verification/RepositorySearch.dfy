/** What one uninterrupted scan of a partition decides, as a function of the values of its batches,
    and that the fine-grained scan of `Repositories` computes it when nobody interferes. */
module RepositorySearch {
  import opened Prelude
  import opened Batches
  import opened Repositories
  import RepositoryInvariants

  /** Nothing to find; a target no pop may name; wait and scan again; the batch at an index. */
  datatype Verdict = Nothing | BadTarget | KeepWaiting | Accepts(index: nat)

  /** The first batch the request does not pass over, if any. */
  function FirstCandidate(q: Request, values: seq<Batch>): (k: nat)
    ensures k <= |values|
    ensures forall j :: 0 <= j < k ==> PassedOver(q, values[j])
    ensures k < |values| ==> !PassedOver(q, values[k])
  {
    if values == [] || !PassedOver(q, values[0]) then 0 else 1 + FirstCandidate(q, values[1..])
  }

  lemma FirstCandidateIs(q: Request, values: seq<Batch>, k: nat)
    requires k <= |values| && (forall j :: 0 <= j < k ==> PassedOver(q, values[j]))
    requires k < |values| ==> !PassedOver(q, values[k])
    ensures FirstCandidate(q, values) == k
  {
  }

  function Judge(q: Request, values: seq<Batch>): Verdict {
    if q.Pop? && values != [] && q.wanted.Processing? then BadTarget
    else
      var k := FirstCandidate(q, values);
      if k == |values| then (if q.Fetch? || values == [] then Nothing else KeepWaiting)
      else if Target(q).None? then Accepts(k)
      else if Target(q).value.Processing? then BadTarget
      else if Attempt(values[k], Target(q).value).1 then Accepts(k)
      else KeepWaiting
  }

  /** What accepting does to the batch. */
  function Taken(q: Request, v: Batch): Batch {
    if Target(q).Some? then Attempt(v, Target(q).value).0 else v
  }

  /** A pop takes index `k` exactly if the batch there accepts and all before it refuse, and waits
      exactly if there are batches and all refuse. */
  lemma PopTakesFirstFit(part: nat, wanted: State, values: seq<Batch>, k: nat)
    requires !wanted.Processing?
    ensures var v := Judge(Pop(0, part, wanted), values);
            && (v == Accepts(k) <==>
                  && k < |values| && Attempt(values[k], wanted).1
                  && forall j :: 0 <= j < k ==> !Attempt(values[j], wanted).1)
            && (v == KeepWaiting <==> values != [] && forall j :: 0 <= j < |values| ==> !Attempt(values[j], wanted).1)
            && (v == Nothing <==> values == [])
  {
    var q, f := Pop(0, part, wanted), FirstCandidate(Pop(0, part, wanted), values);
    forall j | 0 <= j < |values|
      ensures PassedOver(q, values[j]) <==> !Attempt(values[j], wanted).1
    {
      RepositoryInvariants.RefusalLeavesBatch(values[j], wanted);
    }
    if f < |values| {
      assert !PassedOver(q, values[f]);
    }
  }

  /** A search takes index `k` exactly if that is the first batch with the id and it accepts the
      target, if there is one; it waits exactly if the first batch with the id refuses. */
  lemma FetchTakesFirstMatch(part: nat, id: nat, target: Option<State>, keep: bool, values: seq<Batch>, k: nat)
    requires target != Some(Processing)
    requires k < |values| && values[k].id == id && forall j :: 0 <= j < k ==> values[j].id != id
    ensures Judge(Fetch(0, part, id, target, keep), values)
            == if target.None? || Attempt(values[k], target.value).1 then Accepts(k) else KeepWaiting
  {
    FirstCandidateIs(Fetch(0, part, id, target, keep), values, k);
  }

  // ----- the fine-grained scan -----

  function Values(w: World, p: seq<Ref>): seq<Batch>
    requires forall i :: 0 <= i < |p| ==> p[i] in w.batches
  {
    seq(|p|, i requires 0 <= i < |p| => w.batches[p[i]])
  }

  /** Thread `c` looks `n` times and nobody else does anything. */
  function Looks(c: Ref, n: nat): seq<RepoOp> {
    seq(n, i => DoLook(c))
  }

  predicate Starting(st: Shared, c: Ref) {
    && c in st.clients && st.clients[c].Scanning? && st.clients[c].met == []
    && var q, p := st.clients[c].request, st.clients[c].partition;
       && q.repo in st.repos && q.part < |st.repos[q.repo]| && st.repos[q.repo][q.part] == p
       && forall i :: 0 <= i < |p| ==> p[i] in st.world.batches
  }

  /** How many looks pass a batch over before the one that decides. */
  function LooksBefore(q: Request, values: seq<Batch>): (k: nat)
    ensures k <= |values|
  {
    if q.Pop? && q.wanted.Processing? then 0 else FirstCandidate(q, values)
  }

  /** After `n` looks without an answer the thread has met the first `n` values, and nothing else
      is different. */
  lemma {:induction false} LooksSoFar(st: Shared, c: Ref, n: nat)
    requires Starting(st, c)
    requires n <= LooksBefore(st.clients[c].request, Values(st.world, st.clients[c].partition))
    ensures var q, p := st.clients[c].request, st.clients[c].partition;
            Run(st, Looks(c, n)) == WithClient(st, c, Scanning(q, p, Values(st.world, p)[..n]))
  {
    var q, p := st.clients[c].request, st.clients[c].partition;
    var values := Values(st.world, p);
    if n == 0 {
      assert st.clients[c := Scanning(q, p, values[..0])] == st.clients;
    } else {
      LooksSoFar(st, c, n - 1);
      var before := Run(st, Looks(c, n - 1));
      assert Looks(c, n)[..n - 1] == Looks(c, n - 1);
      assert values[..n] == values[..n - 1] + [values[n - 1]];
      assert PassedOver(q, values[n - 1]);
      assert before.clients[c := Scanning(q, p, values[..n])] == st.clients[c := Scanning(q, p, values[..n])];
    }
  }

  /** Without interference a scan reaches its verdict: one look for each batch passed over and one
      more. */
  lemma UndisturbedScan(st: Shared, c: Ref)
    requires Starting(st, c)
    ensures var q, p := st.clients[c].request, st.clients[c].partition;
            var values := Values(st.world, p);
            var k := LooksBefore(q, values);
            var (st', out) := Look(Run(st, Looks(c, k)), c);
            && c in st'.clients
            && match Judge(q, values)
               case Nothing => out == ReturnedNull && st'.world == st.world
               case BadTarget => out == Threw && st'.world == st.world
               case KeepWaiting => out == Quiet && st'.clients[c] == Waiting(q) && st'.world == st.world
               case Accepts(i) => i == k < |p| && out == Returned(p[i])
                                  && st'.world.batches == st.world.batches[p[i] := Taken(q, values[i])]
  {
    var q, p := st.clients[c].request, st.clients[c].partition;
    var values := Values(st.world, p);
    var k := LooksBefore(q, values);
    LooksSoFar(st, c, k);
    if k < |p| {
      assert values[k] == st.world.batches[p[k]];
      if Target(q).None? || Target(q).value.Processing? {
        assert st.world.batches[p[k] := values[k]] == st.world.batches;
      } else {
        RepositoryInvariants.RefusalLeavesBatch(values[k], Target(q).value);
      }
    }
  }
}
