/** Any number of threads inside `update_peak` of one tracker (include/utils/atomics.hpp), one
    atomic access per step. */
module PeakInterleaving {
  import opened Prelude

  /** A thread that has loaded `seen` and wants the peak to be at least `value`. */
  datatype Local = Local(value: int, seen: int)

  /** The cell, the threads inside a call, and the arguments of the calls that have returned. */
  datatype World = World(peak: int, running: map<nat, Local>, completed: seq<int>)

  datatype Step =
    | Call(thread: nat, value: int)
    | Attempt(thread: nat, spurious: bool)

  function Initial(v: int): World {
    World(v, map[], [])
  }

  function Return(w: World, t: nat): World
    requires t in w.running
  {
    w.(running := w.running - {t}, completed := w.completed + [w.running[t].value])
  }

  /** `Call` is the initial load; `Attempt` is the loop guard on the loaded copy and, if it holds,
      one compare-and-swap. */
  function Next(w: World, step: Step): World {
    match step
    case Call(t, value) => if t in w.running then w else w.(running := w.running[t := Local(value, w.peak)])
    case Attempt(t, spurious) =>
      if t !in w.running then w
      else
        var l := w.running[t];
        if l.value <= l.seen then Return(w, t)
        else if w.peak == l.seen && !spurious then Return(w, t).(peak := l.value)
        else w.(running := w.running[t := l.(seen := w.peak)])
  }

  function Run(v: int, steps: seq<Step>): World {
    if steps == [] then Initial(v) else Next(Run(v, steps[..|steps| - 1]), steps[|steps| - 1])
  }

  function Largest(v: int, values: seq<int>): int {
    if values == [] then v else Max(Largest(v, values[..|values| - 1]), values[|values| - 1])
  }

  /** `Largest` is an upper bound, and attained. */
  lemma {:induction false} LargestMeans(v: int, values: seq<int>)
    ensures v <= Largest(v, values)
    ensures forall i :: 0 <= i < |values| ==> values[i] <= Largest(v, values)
    ensures Largest(v, values) == v || Largest(v, values) in values
  {
    if values != [] {
      LargestMeans(v, values[..|values| - 1]);
      assert values == values[..|values| - 1] + [values[|values| - 1]];
    }
  }

  /** A loaded copy is never above the peak, so a thread that sees enough returns rightly. */
  predicate CopiesBelow(w: World) {
    forall t :: t in w.running ==> w.running[t].seen <= w.peak
  }

  lemma StepKeeps(v: int, w: World, step: Step)
    requires CopiesBelow(w) && w.peak == Largest(v, w.completed)
    ensures var w' := Next(w, step); CopiesBelow(w') && w'.peak == Largest(v, w'.completed) && w'.peak >= w.peak
  {
    var w' := Next(w, step);
    if w'.completed != w.completed {
      assert w'.completed[..|w'.completed| - 1] == w.completed;
    }
  }

  lemma {:induction false} RunKeeps(v: int, steps: seq<Step>)
    ensures Run(v, steps).peak == Largest(v, Run(v, steps).completed)
    ensures CopiesBelow(Run(v, steps))
  {
    if steps != [] {
      RunKeeps(v, steps[..|steps| - 1]);
      StepKeeps(v, Run(v, steps[..|steps| - 1]), steps[|steps| - 1]);
    }
  }

  /** A call by a thread in none loads the peak of that moment. */
  lemma CallStarts(v: int, steps: seq<Step>, t: nat, value: int)
    requires t !in Run(v, steps).running
    ensures var w := Run(v, steps);
            Next(w, Call(t, value)) == w.(running := w.running[t := Local(value, w.peak)])
  {
  }

  /** An attempt returns unless it failed spuriously or the peak has risen since it was loaded; then
      the next relies on the new peak. */
  lemma AttemptReturns(v: int, steps: seq<Step>, t: nat, spurious: bool)
    requires t in Run(v, steps).running
    ensures var w := Run(v, steps);
            var w' := Next(w, Attempt(t, spurious));
            var l := w.running[t];
            if t in w'.running then w'.running[t] == Local(l.value, w.peak) && (spurious || l.seen < w.peak)
            else w'.completed == w.completed + [l.value]
  {
    RunKeeps(v, steps);
  }

  /** In every interleaving the peak is the largest of its initial value and the arguments of all
      updates that have returned: none of them is above it, and it is one of them. */
  lemma PeakIsLargest(v: int, steps: seq<Step>)
    ensures var w := Run(v, steps);
            && v <= w.peak && (forall i :: 0 <= i < |w.completed| ==> w.completed[i] <= w.peak)
            && (w.peak == v || w.peak in w.completed)
  {
    RunKeeps(v, steps);
    LargestMeans(v, Run(v, steps).completed);
  }
}
