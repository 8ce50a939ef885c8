/** Any number of threads inside `add`, `try_add`, `add_bounded`, `sub`, `try_sub` and
    `sub_bounded` of one counter (include/utils/atomics.hpp), one atomic access per step.

    The cell is represented by the list of all contents it has had; `log[i]` is the commit
    between contents i and i + 1. An instant of a run is an index into `contents`. */
module CounterInterleaving {
  import opened Prelude

  datatype Request =
    | Add(amount: nat)
    | Sub(amount: nat)
    | TryAdd(amount: nat, bound: int)
    | AddBounded(amount: nat, bound: int)
    | TrySub(amount: nat, bound: int)
    | SubBounded(amount: nat, bound: int)
  {
    predicate Adds() { Add? || TryAdd? || AddBounded? }

    /** One `fetch_add` or `fetch_sub`, without a bound. */
    predicate Unconditional() { Add? || Sub? }

    predicate AllOrNothing() { TryAdd? || TrySub? }

    predicate Bounded() { AddBounded? || SubBounded? }

    /** How much the bound leaves at content `v`. */
    function Room(v: int): int
      requires !Unconditional()
    {
      if Adds() then bound - v else v - bound
    }

    function Delta(granted: nat): int {
      var d: int := granted;
      if Adds() then d else -d
    }
  }

  /** A write by the operation that `thread` called at instant `start`. */
  datatype Commit = Commit(thread: nat, req: Request, granted: nat, start: nat)
  {
    function Change(): int { req.Delta(granted) }
  }

  /** Where a thread is: between operations, inside the retry loop with its loaded copy
      (`current`, read at instant `seen`) and what is left of its by-reference amount, or returned. */
  datatype Local =
    | Idle
    | Running(req: Request, diff: nat, current: int, start: nat, seen: nat, failures: nat, spurious: nat)
    | Returned(req: Request, granted: nat, success: bool, result: int,
               start: nat, at: nat, end: nat, failures: nat, spurious: nat)

  datatype World = World(contents: seq<int>, log: seq<Commit>, threads: map<nat, Local>)
  {
    predicate WellShaped() {
      |contents| == |log| + 1
    }

    function Now(): nat
      requires WellShaped()
    {
      |log|
    }

    function Value(): int
      requires WellShaped()
    {
      contents[|log|]
    }

    function At(t: nat): Local {
      if t in threads then threads[t] else Idle
    }
  }

  function Initial(v: int): World {
    World([v], [], map[])
  }

  datatype Step =
    | Call(thread: nat, req: Request)
    | Attempt(thread: nat, spurious: bool)

  /** Line by line: `Call` is the whole of an unconditional operation and the initial load of any
      other; `Attempt` is the guard on the loaded copy followed,
      if it passes, by one compare-and-swap. A step that does not apply changes nothing. */
  function Next(w: World, step: Step): World
    requires w.WellShaped()
  {
    match step
    case Call(t, req) =>
      if w.At(t).Running? then w
      else if req.Unconditional() then
        var v := w.Value() + req.Delta(req.amount);
        World(w.contents + [v], w.log + [Commit(t, req, req.amount, w.Now())],
              w.threads[t := Returned(req, req.amount, true, v, w.Now(), w.Now(), w.Now() + 1, 0, 0)])
      else w.(threads := w.threads[t := Running(req, req.amount, w.Value(), w.Now(), w.Now(), 0, 0)])
    case Attempt(t, spurious) =>
      match w.At(t)
      case Running(req, diff, current, start, seen, failures, spent) =>
        if req.Unconditional() then w else
        var room := req.Room(current);
        if req.AllOrNothing() && (room < 0 || room < diff) then
          w.(threads := w.threads[t := Returned(req, 0, false, current, start, seen, w.Now(), failures, spent)])
        else if req.Bounded() && room <= 0 then
          w.(threads := w.threads[t := Returned(req, 0, true, current, start, seen, w.Now(), failures, spent)])
        else
          var asked := if req.AllOrNothing() then diff else Min(diff, room);
          if w.Value() == current && !spurious then
            var v := current + req.Delta(asked);
            World(w.contents + [v], w.log + [Commit(t, req, asked, start)],
                  w.threads[t := Returned(req, asked, true, v, start, w.Now(), w.Now() + 1, failures, spent)])
          else
            w.(threads := w.threads[t := Running(req, asked, w.Value(), start, w.Now(), failures + 1,
                                                 if w.Value() == current then spent + 1 else spent)])
      case _ => w
  }

  /** Running a list of steps, the last one last. */
  function Run(v: int, steps: seq<Step>): (w: World)
    ensures w.WellShaped()
  {
    if steps == [] then Initial(v)
    else
      var before := Run(v, steps[..|steps| - 1]);
      Next(before, steps[|steps| - 1])
  }

  predicate BoundOk(req: Request, lo: int, hi: int) {
    req.Unconditional() || if req.Adds() then req.bound <= hi else req.bound >= lo
  }

  /** Every bounded addition in the run uses a bound of at most `hi`, every bounded subtraction one
      of at least `lo`. */
  predicate BoundsWithin(steps: seq<Step>, lo: int, hi: int) {
    forall step :: step in steps && step.Call? ==> BoundOk(step.req, lo, hi)
  }

  /** A `fetch_add` or `fetch_sub` whose amount fits into the range. */
  predicate FetchFits(w: World, step: Step, lo: int, hi: int)
    requires w.WellShaped()
  {
    step.Call? && step.req.Unconditional() && !w.At(step.thread).Running? ==>
      lo <= w.Value() + step.req.Delta(step.req.amount) <= hi
  }

  ghost predicate FetchesFit(v: int, steps: seq<Step>, lo: int, hi: int) {
    steps == [] ||
    (FetchesFit(v, steps[..|steps| - 1], lo, hi)
     && FetchFits(Run(v, steps[..|steps| - 1]), steps[|steps| - 1], lo, hi))
  }

  // ----- the sequential meaning of each operation -----

  /** What the operation may do in one atomic step at content `v`: for all but the bounded
      operations one outcome. A bounded operation may add or take any part of its amount that the
      bound leaves room for at `v`; `Tightest` says which one. */
  predicate AtomicOutcome(req: Request, v: int, granted: nat, success: bool, result: int) {
    if req.Unconditional() then
      && success
      && granted == req.amount
      && result == v + req.Delta(granted)
    else if req.AllOrNothing() then
      && success == (req.Room(v) >= 0 && req.Room(v) >= req.amount)
      && granted == (if success then req.amount else 0)
      && result == v + req.Delta(granted)
    else
      && success
      && granted <= req.amount
      && granted <= Max(0, req.Room(v))
      && result == v + req.Delta(granted)
  }

  /** A bounded operation settles for the request or for exactly the room of some content it
      loaded between its start and its effect. */
  predicate Tightest(w: World, req: Request, granted: nat, start: nat, at: nat)
    requires w.WellShaped() && at < |w.contents|
  {
    req.Bounded() && granted != req.amount ==>
      exists i: nat :: start <= i <= at && granted == Max(0, req.Room(w.contents[i]))
  }

  /** Every commit made from instant `from` up to instant `to` came from a thread other than `t`. */
  predicate OnlyOthers(w: World, t: nat, from: nat, to: nat) {
    forall i :: from <= i < to && i < |w.log| ==> w.log[i].thread != t
  }

  /** A returned operation took effect at one instant inside its own call, with the outcome the
      atomic operation has there; if it changed the cell, the log entry of that instant is its own. */
  predicate Linearized(w: World, t: nat, l: Local)
    requires w.WellShaped() && l.Returned?
  {
    && l.start <= l.at <= l.end <= w.Now()
    && AtomicOutcome(l.req, w.contents[l.at], l.granted, l.success, l.result)
    && Tightest(w, l.req, l.granted, l.start, l.at)
    && (l.granted > 0 ==> l.at < l.end && w.log[l.at] == Commit(t, l.req, l.granted, l.start))
    && OnlyOthers(w, t, l.start, l.at)
    && l.failures <= (l.at - l.start) + l.spurious
  }

  /** The other way round: commit `i` is the effect, at instant i, of the operation its thread
      called at `start`, and the only effect that operation has had up to there. */
  predicate Replayed(w: World, i: nat)
    requires w.WellShaped() && i < |w.log|
  {
    var c := w.log[i];
    && c.start <= i
    && AtomicOutcome(c.req, w.contents[i], c.granted, true, w.contents[i + 1])
    && Tightest(w, c.req, c.granted, c.start, i)
    && OnlyOthers(w, c.thread, c.start, i)
  }

  predicate LocalOk(w: World, t: nat, l: Local)
    requires w.WellShaped()
  {
    match l
    case Idle => true
    case Running(req, diff, current, start, seen, failures, spurious) =>
      && !req.Unconditional()
      && start <= seen <= w.Now()
      && w.contents[seen] == current
      && diff <= req.amount
      && (req.AllOrNothing() ==> diff == req.amount)
      && (diff == req.amount || exists i: nat :: start <= i <= seen && diff == Max(0, req.Room(w.contents[i])))
      && OnlyOthers(w, t, start, w.Now())
      && failures <= (seen - start) + spurious
    case Returned(_, _, _, _, _, _, _, _, _) => Linearized(w, t, l)
  }

  predicate Consistent(w: World) {
    && w.WellShaped()
    && (forall i :: 0 <= i < |w.log| ==> w.contents[i + 1] == w.contents[i] + w.log[i].Change())
    && (forall i: nat :: i < |w.log| ==> Replayed(w, i))
    && (forall t :: t in w.threads ==> LocalOk(w, t, w.threads[t]))
  }

  /** What holds of a thread keeps holding when the lists grow. */
  lemma LocalOkPersists(w: World, v: World, t: nat, l: Local)
    requires w.WellShaped() && v.WellShaped()
    requires w.contents <= v.contents && w.log <= v.log
    requires forall i :: |w.log| <= i < |v.log| ==> v.log[i].thread != t
    requires LocalOk(w, t, l)
    ensures LocalOk(v, t, l)
  {
    match l
    case Idle =>
    case Running(req, diff, current, start, seen, failures, spurious) =>
      if diff != req.amount {
        var i: nat :| start <= i <= seen && diff == Max(0, req.Room(w.contents[i]));
        assert v.contents[i] == w.contents[i];
      }
    case Returned(req, granted, success, result, start, at, end, failures, spurious) =>
      if req.Bounded() && granted != req.amount {
        var i: nat :| start <= i <= at && granted == Max(0, req.Room(w.contents[i]));
        assert v.contents[i] == w.contents[i];
      }
  }

  /** The acting thread's own state after its step. */
  lemma ActorOk(w: World, t: nat, spurious: bool)
    requires Consistent(w) && w.At(t).Running?
    ensures var v := Next(w, Attempt(t, spurious)); v.WellShaped() && LocalOk(v, t, v.At(t))
  {
    assert t in w.threads && LocalOk(w, t, w.threads[t]);
    var v := Next(w, Attempt(t, spurious));
    var l := w.At(t);
    var room := l.req.Room(l.current);
    assert w.contents <= v.contents && w.log <= v.log;
    if l.req.AllOrNothing() && (room < 0 || room < l.diff) {
      assert v.contents[l.seen] == l.current;
    } else if l.req.Bounded() && room <= 0 {
      assert Max(0, l.req.Room(v.contents[l.seen])) == 0;
    } else {
      var asked := if l.req.AllOrNothing() then l.diff else Min(l.diff, room);
      if asked != l.diff {
        assert Max(0, l.req.Room(v.contents[l.seen])) == asked;
      }
      if w.Value() == l.current && !spurious {
        assert v.contents[w.Now()] == w.contents[w.Now()] == l.current;
        assert v.log[w.Now()] == Commit(t, l.req, asked, l.start);
      }
    }
  }

  /** A step appends to the history of the cell, only in the name of its own thread, and touches
      no other thread. */
  lemma StepGrows(w: World, step: Step)
    requires w.WellShaped()
    ensures var v := Next(w, step);
            && v.WellShaped() && w.contents <= v.contents && w.log <= v.log
            && (forall i :: |w.log| <= i < |v.log| ==> v.log[i].thread == step.thread)
            && (forall i :: |w.log| <= i < |v.log| ==> v.contents[i + 1] == v.contents[i] + v.log[i].Change())
            && (forall t :: t != step.thread ==> v.At(t) == w.At(t))
            && (forall t :: t in v.threads && t != step.thread ==> t in w.threads)
            && (v.At(step.thread) != w.At(step.thread) ==> step.Call? || w.At(step.thread).Running?)
  {
  }

  lemma ReplayedPersists(w: World, v: World, i: nat)
    requires w.WellShaped() && v.WellShaped()
    requires w.contents <= v.contents && w.log <= v.log
    requires i < |w.log| && Replayed(w, i)
    ensures Replayed(v, i)
  {
    var c := w.log[i];
    if c.req.Bounded() && c.granted != c.req.amount {
      var k: nat :| c.start <= k <= i && c.granted == Max(0, c.req.Room(w.contents[k]));
      assert v.contents[k] == w.contents[k];
    }
  }

  /** A new commit is the operation that returns with it. */
  lemma CommitReplayed(w: World, step: Step)
    requires Consistent(w) && |Next(w, step).log| > |w.log|
    requires var v := Next(w, step); v.WellShaped() && LocalOk(v, step.thread, v.At(step.thread))
    ensures var v := Next(w, step); |v.log| == |w.log| + 1 && v.WellShaped() && Replayed(v, |w.log|)
  {
  }

  lemma ThreadsStep(w: World, step: Step)
    requires Consistent(w)
    ensures var v := Next(w, step); v.WellShaped() && forall t :: t in v.threads ==> LocalOk(v, t, v.threads[t])
  {
    var v := Next(w, step);
    StepGrows(w, step);
    if step.Attempt? && w.At(step.thread).Running? {
      ActorOk(w, step.thread, step.spurious);
    }
    forall t | t in v.threads
      ensures LocalOk(v, t, v.threads[t])
    {
      if t != step.thread {
        LocalOkPersists(w, v, t, w.threads[t]);
      } else if v.threads == w.threads {
        assert LocalOk(w, t, w.threads[t]);
      }
    }
  }

  lemma LogStep(w: World, step: Step)
    requires Consistent(w)
    ensures var v := Next(w, step); v.WellShaped() && forall i: nat :: i < |v.log| ==> Replayed(v, i)
  {
    var v := Next(w, step);
    StepGrows(w, step);
    ThreadsStep(w, step);
    forall i: nat | i < |v.log|
      ensures Replayed(v, i)
    {
      if i < |w.log| {
        ReplayedPersists(w, v, i);
      } else {
        CommitReplayed(w, step);
      }
    }
  }

  lemma ConsistentStep(w: World, step: Step)
    requires Consistent(w)
    ensures Consistent(Next(w, step))
  {
    StepGrows(w, step);
    ThreadsStep(w, step);
    LogStep(w, step);
  }

  lemma {:induction false} RunConsistent(v: int, steps: seq<Step>)
    ensures Consistent(Run(v, steps))
    ensures Run(v, steps).contents[0] == v
  {
    if steps != [] {
      RunConsistent(v, steps[..|steps| - 1]);
      ConsistentStep(Run(v, steps[..|steps| - 1]), steps[|steps| - 1]);
    }
  }

  // ----- the theorems, over every run of every number of threads -----

  /** Linearizability: an operation that has returned behaved as its atomic version at an instant
      between its call and its return. In particular a failed `try_add` or `try_sub` saw, inside
      its own interval, a content where its amount did not fit. */
  lemma Linearizability(v: int, steps: seq<Step>, t: nat)
    requires Run(v, steps).At(t).Returned?
    ensures Linearized(Run(v, steps), t, Run(v, steps).At(t))
  {
    var w := Run(v, steps);
    RunConsistent(v, steps);
    assert t in w.threads && LocalOk(w, t, w.threads[t]);
  }

  /** And the log tells nothing but operations: taken in its order, each commit is an atomic step
      of one operation inside that operation's call, from one content of the cell to the next. */
  lemma Replay(v: int, steps: seq<Step>, i: nat)
    requires i < |Run(v, steps).log|
    ensures Replayed(Run(v, steps), i)
  {
    RunConsistent(v, steps);
  }

  lemma {:induction false} Telescope(w: World, n: nat)
    requires Consistent(w) && n <= |w.log|
    ensures w.contents[n] == w.contents[0] + SeqSum(w.log[..n], (c: Commit) => c.Change())
  {
    if n > 0 {
      Telescope(w, n - 1);
      assert w.log[..n][..n - 1] == w.log[..n - 1];
    }
  }

  /** Conservation: the cell holds its initial value plus everything committed. */
  lemma {:induction false} Conservation(v: int, steps: seq<Step>)
    ensures Run(v, steps).Value() == v + SeqSum(Run(v, steps).log, (c: Commit) => c.Change())
  {
    var w := Run(v, steps);
    RunConsistent(v, steps);
    Telescope(w, |w.log|);
    assert w.log[..|w.log|] == w.log;
  }

  predicate Within(w: World, lo: int, hi: int) {
    forall i :: 0 <= i < |w.contents| ==> lo <= w.contents[i] <= hi
  }

  predicate BoundsKept(w: World, lo: int, hi: int) {
    forall t :: t in w.threads && w.threads[t].Running? ==> BoundOk(w.threads[t].req, lo, hi)
  }

  lemma {:induction false} RunBounds(v: int, steps: seq<Step>, lo: int, hi: int)
    requires BoundsWithin(steps, lo, hi)
    ensures BoundsKept(Run(v, steps), lo, hi)
  {
    if steps != [] {
      RunBounds(v, steps[..|steps| - 1], lo, hi);
      assert steps[|steps| - 1] in steps;
    }
  }

  lemma StepWithinIff(w: World, step: Step, lo: int, hi: int)
    requires Consistent(w) && Within(w, lo, hi) && BoundsKept(w, lo, hi)
    ensures Within(Next(w, step), lo, hi) <==> FetchFits(w, step, lo, hi)
  {
    var u := Next(w, step);
    assert w.At(step.thread).Running? ==> LocalOk(w, step.thread, w.At(step.thread));
    assert forall i :: 0 <= i < |w.contents| ==> u.contents[i] == w.contents[i];
    if u.contents != w.contents {
      assert u.contents[|w.contents|] == u.Value();
    }
  }

  /** The cell leaves the range its users agreed on at no instant of a run exactly when every
      `fetch_add` and `fetch_sub` in it fits; the bounded operations see to themselves. */
  lemma {:induction false} StaysWithinIff(v: int, steps: seq<Step>, lo: int, hi: int)
    requires lo <= v <= hi && BoundsWithin(steps, lo, hi)
    ensures Within(Run(v, steps), lo, hi) <==> FetchesFit(v, steps, lo, hi)
  {
    if steps != [] {
      var before := steps[..|steps| - 1];
      var w, step := Run(v, before), steps[|steps| - 1];
      StaysWithinIff(v, before, lo, hi);
      RunConsistent(v, before);
      RunBounds(v, before, lo, hi);
      StepGrows(w, step);
      if Within(w, lo, hi) {
        StepWithinIff(w, step, lo, hi);
      } else {
        var i :| 0 <= i < |w.contents| && !(lo <= w.contents[i] <= hi);
        assert Next(w, step).contents[i] == w.contents[i];
      }
    }
  }

  lemma {:induction false} NoSpuriousFailures(v: int, steps: seq<Step>, t: nat)
    requires forall step :: step in steps ==> !(step.Attempt? && step.spurious)
    ensures var l := Run(v, steps).At(t); (l.Running? || l.Returned?) ==> l.spurious == 0
  {
    if steps != [] {
      NoSpuriousFailures(v, steps[..|steps| - 1], t);
      assert steps[|steps| - 1] in steps;
    }
  }

  /** Progress: without spurious failures an operation overlapped by K commits of other threads
      issues at most K + 1 compare-and-swaps (its failures, and the one that ends it). */
  lemma ProgressMeasure(v: int, steps: seq<Step>, t: nat)
    requires forall step :: step in steps ==> !(step.Attempt? && step.spurious)
    ensures var w := Run(v, steps); var l := w.At(t);
            && (l.Running? ==> OnlyOthers(w, t, l.start, w.Now()) && l.failures + 1 <= (w.Now() - l.start) + 1)
            && (l.Returned? ==> OnlyOthers(w, t, l.start, l.at) && l.failures + 1 <= (l.at - l.start) + 1)
  {
    NoSpuriousFailures(v, steps, t);
    RunConsistent(v, steps);
    var w := Run(v, steps);
    assert t in w.threads ==> LocalOk(w, t, w.threads[t]);
  }

  /** A call by a thread in no operation takes effect at once if it is unconditional, and otherwise
      relies on the content it finds and asks for the whole amount. */
  lemma CallStarts(v: int, steps: seq<Step>, t: nat, req: Request)
    requires !Run(v, steps).At(t).Running?
    ensures var w := Run(v, steps);
            var w' := Next(w, Call(t, req));
            var l := w'.At(t);
            && l.req == req && l.start == w.Now() && l.failures == 0
            && (req.Unconditional() ==> l.Returned? && l.at == w.Now() && w'.contents == w.contents + [l.result])
            && (!req.Unconditional() ==>
                  l.Running? && l.diff == req.amount && l.current == w.Value() && l.seen == w.Now() && w'.contents == w.contents)
  {
  }

  /** Lock-freedom: an attempt returns unless it failed spuriously or some operation of another
      thread has committed since the load it relies on; then the next attempt relies on a new one. */
  lemma AttemptReturns(v: int, steps: seq<Step>, t: nat, spurious: bool)
    requires Run(v, steps).At(t).Running?
    ensures var w := Run(v, steps);
            var l, l' := w.At(t), Next(w, Attempt(t, spurious)).At(t);
            l'.Returned? || (l'.Running? && l'.seen == w.Now() && l'.current == w.Value() && (spurious || l.seen < w.Now()))
  {
    var w := Run(v, steps);
    RunConsistent(v, steps);
    assert t in w.threads && LocalOk(w, t, w.threads[t]);
  }

  /** With nobody else committing during the call, a bounded operation grants exactly the smaller
      of the request and the room it found. */
  lemma UndisturbedGrant(v: int, steps: seq<Step>, t: nat)
    requires var l := Run(v, steps).At(t); l.Returned? && l.req.Bounded() && l.at == l.start
    ensures var w := Run(v, steps); var l := w.At(t);
            l.at < |w.contents| && l.granted == Min(l.req.amount, Max(0, l.req.Room(w.contents[l.at])))
  {
    Linearizability(v, steps, t);
  }

  lemma RunExtend(v: int, steps: seq<Step>, step: Step)
    ensures Run(v, steps + [step]) == Next(Run(v, steps), step)
  {
    assert (steps + [step])[..|steps|] == steps;
  }

  /** Both threads have loaded 18. */
  lemma BothCalled()
    ensures var w := Run(18, [Call(0, AddBounded(10, 20)), Call(1, TrySub(9, 0))]);
            && w.contents == [18] && w.log == []
            && w.At(0) == Running(AddBounded(10, 20), 10, 18, 0, 0, 0, 0)
            && w.At(1) == Running(TrySub(9, 0), 9, 18, 0, 0, 0, 0)
  {
    var s0, s1 := Call(0, AddBounded(10, 20)), Call(1, TrySub(9, 0));
    RunExtend(18, [], s0);
    RunExtend(18, [s0], s1);
    assert [] + [s0] == [s0] && [s0] + [s1] == [s0, s1];
  }

  /** After thread 1 took the cell from 18 to 9, thread 0 fails once and then adds 2. */
  lemma ThenNarrowed(steps: seq<Step>)
    requires var w := Run(18, steps);
             && w.contents == [18, 9] && |w.log| == 1
             && w.At(0) == Running(AddBounded(10, 20), 10, 18, 0, 0, 0, 0)
    ensures var v := Run(18, steps + [Attempt(0, false)] + [Attempt(0, false)]);
            && v.contents == [18, 9, 11] && v.At(0).Returned? && v.At(0).at == 1 && v.At(0).granted == 2
            && v.At(0).req == AddBounded(10, 20)
  {
    RunExtend(18, steps, Attempt(0, false));
    var u := Run(18, steps + [Attempt(0, false)]);
    assert u.contents == [18, 9] && u.At(0) == Running(AddBounded(10, 20), 2, 9, 0, 1, 1, 0);
    RunExtend(18, steps + [Attempt(0, false)], Attempt(0, false));
  }

  /** Under interference that is not so: a retry keeps the amount an earlier load had cut it down
      to, even when room has come back. Here 10 is asked for and 10 fits when it commits, yet 2 is added. */
  lemma NarrowedGrantIsSticky()
    ensures var steps := [Call(0, AddBounded(10, 20)), Call(1, TrySub(9, 0)), Attempt(1, false),
                          Attempt(0, false), Attempt(0, false)];
            var w := Run(18, steps); var l := w.At(0);
            && w.contents == [18, 9, 11] && l.Returned? && l.at == 1 && l.req == AddBounded(10, 20)
            && l.granted == 2 && l.req.Room(w.contents[1]) == 11
  {
    var s0, s1 := Call(0, AddBounded(10, 20)), Call(1, TrySub(9, 0));
    var s2, s3 := Attempt(1, false), Attempt(0, false);
    BothCalled();
    RunExtend(18, [s0, s1], s2);
    assert [s0, s1] + [s2] == [s0, s1, s2];
    ThenNarrowed([s0, s1, s2]);
    assert [s0, s1, s2] + [s3] + [s3] == [s0, s1, s2, s3, s3];
  }
}
