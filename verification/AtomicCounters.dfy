/** The compare-and-swap retry loops of include/utils/atomics.hpp, each run by one thread
    while other threads change the same cell.

    The interference is an arbitrary finite schedule: turn `n` happens between this thread's
    n-th read of the cell and the compare-and-swap that follows it. `CellAt(v, schedule, n)` is
    what the cell holds after `n` turns when it held `v` at the first load. Once the schedule
    is used up nobody else touches the cell. */
module AtomicCounters {
  import opened Prelude

  /** Other threads leave `value` in the cell; a weak compare-and-swap may also fail spuriously. */
  datatype Turn = Turn(value: int, spurious: bool)

  function CellAt(v: int, schedule: seq<Turn>, n: nat): int {
    if n == 0 || schedule == [] then v
    else if n <= |schedule| then schedule[n - 1].value
    else schedule[|schedule| - 1].value
  }

  predicate SpuriousAt(schedule: seq<Turn>, n: nat) {
    n < |schedule| && schedule[n].spurious
  }

  // ----- the guards, in the order the code tests them -----

  predicate Fits(v: int, diff: int, upper: int) {
    !(upper < v || upper - v < diff)
  }

  predicate FitsBelow(v: int, diff: int, lower: int) {
    !(v < lower || v - lower < diff)
  }

  // ----- what the loops compute when nobody interferes -----

  function TryAddValue(v: int, diff: int, upper: int): int {
    if Fits(v, diff, upper) then v + diff else v
  }

  function Granted(v: int, diff: nat, upper: int): nat {
    if v < upper then Min(diff, upper - v) else 0
  }

  /** The amount still asked for after the loads at times 0..n: `diff` is a reference parameter,
      so each retry starts from what the previous one was willing to settle for. */
  function Narrowed(v: int, schedule: seq<Turn>, diff: nat, upper: int, n: nat): int
  {
    var space := upper - CellAt(v, schedule, n);
    if n == 0 then Min(diff, space) else Min(Narrowed(v, schedule, diff, upper, n - 1), space)
  }

  function NarrowedBelow(v: int, schedule: seq<Turn>, diff: nat, lower: int, n: nat): int
  {
    var space := CellAt(v, schedule, n) - lower;
    if n == 0 then Min(diff, space) else Min(NarrowedBelow(v, schedule, diff, lower, n - 1), space)
  }

  /** Narrowing never asks for more than any load along the way had room for. */
  lemma {:induction false} NarrowedIsTightest(v: int, schedule: seq<Turn>, diff: nat, upper: int, n: nat, j: nat)
    requires j <= n
    ensures Narrowed(v, schedule, diff, upper, n) <= diff
    ensures Narrowed(v, schedule, diff, upper, n) <= upper - CellAt(v, schedule, j)
    ensures Narrowed(v, schedule, diff, upper, n) == diff
            || exists i: nat :: i <= n && Narrowed(v, schedule, diff, upper, n) == upper - CellAt(v, schedule, i)
  {
    if n > 0 {
      NarrowedIsTightest(v, schedule, diff, upper, n - 1, Min(j, n - 1));
    } else {
      assert n <= n;
    }
  }

  /** So under interference `add_bounded` grants the smaller of the request and the room at its
      commit exactly when no earlier load of the same call saw less room than that. */
  lemma {:induction false} GrantsRoomAtCommitIff(v: int, schedule: seq<Turn>, diff: nat, upper: int, n: nat)
    ensures Narrowed(v, schedule, diff, upper, n) == Min(diff, upper - CellAt(v, schedule, n))
            <==> forall j: nat :: j < n ==> Min(diff, upper - CellAt(v, schedule, n)) <= upper - CellAt(v, schedule, j)
  {
    forall j: nat | j <= n
      ensures Narrowed(v, schedule, diff, upper, n) <= upper - CellAt(v, schedule, j)
    {
      NarrowedIsTightest(v, schedule, diff, upper, n, j);
    }
    NarrowedIsTightest(v, schedule, diff, upper, n, n);
  }

  /** The same schedule with everything below zero above it and the other way round. */
  function Mirrored(schedule: seq<Turn>): seq<Turn> {
    seq(|schedule|, i requires 0 <= i < |schedule| => Turn(-schedule[i].value, schedule[i].spurious))
  }

  /** Narrowing downwards is narrowing upwards in a mirror, so both lemmas hold of it too. */
  lemma {:induction false} NarrowedMirrored(v: int, schedule: seq<Turn>, diff: nat, lower: int, n: nat)
    ensures NarrowedBelow(v, schedule, diff, lower, n) == Narrowed(-v, Mirrored(schedule), diff, -lower, n)
  {
    assert CellAt(-v, Mirrored(schedule), n) == -CellAt(v, schedule, n);
    if n > 0 { NarrowedMirrored(v, schedule, diff, lower, n - 1); }
  }

  class AtomicBoundedCounter {
    var value: int

    constructor (initial: int)
      ensures value == initial
    {
      value := initial;
    }

    /** One weak compare-and-swap: on failure the caller's `current` is reloaded. */
    method CompareExchangeWeak(current: int, desired: int, schedule: seq<Turn>, n: nat, ghost v: int)
      returns (ok: bool, seen: int)
      requires value == CellAt(v, schedule, n)
      modifies this
      ensures ok == (CellAt(v, schedule, n + 1) == current && !SpuriousAt(schedule, n))
      ensures ok ==> value == desired && seen == current
      ensures !ok ==> value == seen == CellAt(v, schedule, n + 1)
    {
      if n < |schedule| {
        value := schedule[n].value;
      }
      if value == current && !SpuriousAt(schedule, n) {
        value := desired;
        return true, current;
      }
      return false, value;
    }

    /** `try_add`: `at` is the instant the verdict refers to. A success adds exactly `diff` to the
        cell content of that instant, which had room for it; a failure reports a content that the
        cell really had at an instant inside the call and that had no room. */
    method TryAdd(diff: int, upper: int, schedule: seq<Turn> := []) returns (ok: bool, post: int, ghost at: nat)
      modifies this
      ensures at <= |schedule| + 1
      ensures ok ==> Fits(CellAt(old(value), schedule, at), diff, upper)
      ensures ok ==> value == post == CellAt(old(value), schedule, at) + diff
      ensures !ok ==> !Fits(CellAt(old(value), schedule, at), diff, upper)
      ensures !ok ==> value == post == CellAt(old(value), schedule, at)
      ensures schedule == [] ==> ok == Fits(old(value), diff, upper) && value == post == TryAddValue(old(value), diff, upper)
      ensures schedule == [] && diff >= 0 ==> ok == (old(value) + diff <= upper)
    {
      ghost var v := value;
      var current := value;
      var n := 0;
      while true
        invariant n <= |schedule|
        invariant value == current == CellAt(v, schedule, n)
        decreases |schedule| - n
      {
        if upper < current || upper - current < diff {
          return false, current, n;
        }
        var swapped, seen := CompareExchangeWeak(current, current + diff, schedule, n, v);
        if swapped {
          return true, current + diff, n + 1;
        }
        current := seen;
        n := n + 1;
      }
    }

    /** `try_sub`, the mirror image of `try_add`. */
    method TrySub(diff: int, lower: int, schedule: seq<Turn> := []) returns (ok: bool, post: int, ghost at: nat)
      modifies this
      ensures at <= |schedule| + 1
      ensures ok ==> FitsBelow(CellAt(old(value), schedule, at), diff, lower)
      ensures ok ==> value == post == CellAt(old(value), schedule, at) - diff
      ensures !ok ==> !FitsBelow(CellAt(old(value), schedule, at), diff, lower)
      ensures !ok ==> value == post == CellAt(old(value), schedule, at)
      ensures schedule == [] && diff >= 0 ==> ok == (old(value) - diff >= lower)
    {
      ghost var v := value;
      var current := value;
      var n := 0;
      while true
        invariant n <= |schedule|
        invariant value == current == CellAt(v, schedule, n)
        decreases |schedule| - n
      {
        if current < lower || current - lower < diff {
          return false, current, n;
        }
        var swapped, seen := CompareExchangeWeak(current, current - diff, schedule, n, v);
        if swapped {
          return true, current - diff, n + 1;
        }
        current := seen;
        n := n + 1;
      }
    }

    /** `add_bounded`: what is committed is what is reported, it fits under the bound at the instant
        of the commit, and it is the request narrowed by every load of the call. */
    method AddBounded(diff: nat, upper: int, schedule: seq<Turn> := []) returns (given: nat, post: int, ghost at: nat)
      modifies this
      ensures at <= |schedule| + 1
      ensures value == post == CellAt(old(value), schedule, at) + given
      ensures CellAt(old(value), schedule, at) < upper ==> post <= upper
      ensures CellAt(old(value), schedule, at) >= upper ==> given == 0
      ensures CellAt(old(value), schedule, at) < upper ==>
                at > 0 && given == Narrowed(old(value), schedule, diff, upper, at - 1)
      ensures schedule == [] ==> given == Granted(old(value), diff, upper) && value == old(value) + given
    {
      ghost var v := value;
      var current := value;
      given := diff;
      var n := 0;
      while current < upper
        invariant n <= |schedule|
        invariant value == current == CellAt(v, schedule, n)
        invariant n == 0 ==> given == diff
        invariant n > 0 ==> given == Narrowed(v, schedule, diff, upper, n - 1)
        decreases |schedule| - n
      {
        given := Min(given, upper - current);
        var swapped, seen := CompareExchangeWeak(current, current + given, schedule, n, v);
        if swapped {
          return given, current + given, n + 1;
        }
        current := seen;
        n := n + 1;
      }
      return 0, current, n;
    }

    /** `sub_bounded`, the mirror image of `add_bounded`. */
    method SubBounded(diff: nat, lower: int, schedule: seq<Turn> := []) returns (taken: nat, post: int, ghost at: nat)
      modifies this
      ensures at <= |schedule| + 1
      ensures value == post == CellAt(old(value), schedule, at) - taken
      ensures CellAt(old(value), schedule, at) > lower ==> post >= lower
      ensures CellAt(old(value), schedule, at) <= lower ==> taken == 0
      ensures CellAt(old(value), schedule, at) > lower ==>
                at > 0 && taken == NarrowedBelow(old(value), schedule, diff, lower, at - 1)
      ensures schedule == [] ==> taken == Min(diff, Max(0, old(value) - lower)) && value == old(value) - taken
    {
      ghost var v := value;
      var current := value;
      taken := diff;
      var n := 0;
      while current > lower
        invariant n <= |schedule|
        invariant value == current == CellAt(v, schedule, n)
        invariant n == 0 ==> taken == diff
        invariant n > 0 ==> taken == NarrowedBelow(v, schedule, diff, lower, n - 1)
        decreases |schedule| - n
      {
        taken := Min(taken, current - lower);
        var swapped, seen := CompareExchangeWeak(current, current - taken, schedule, n, v);
        if swapped {
          return taken, current - taken, n + 1;
        }
        current := seen;
        n := n + 1;
      }
      return 0, current, n;
    }

    /** `sub` on the unsigned instances: the machine subtraction, which wraps below zero. */
    method Sub(diff: int)
      modifies this
      ensures value == SubWord(old(value), diff)
    {
      value := SubWord(value, diff);
    }
  }

  class AtomicPeakTracker {
    var peak: int

    constructor ()
      ensures peak == 0
    {
      peak := 0;
    }

    /** `update_peak`: whatever the others write, this call leaves the larger of its argument
        and the content the cell had at the instant the call took effect. */
    method UpdatePeak(current: int, schedule: seq<Turn> := [])
      modifies this
      ensures exists at: nat :: at <= |schedule| + 1 && peak == Max(CellAt(old(peak), schedule, at), current)
      ensures schedule == [] ==> peak == Max(old(peak), current)
    {
      ghost var v := peak;
      var seen := peak;
      var n := 0;
      while current > seen
        invariant n <= |schedule|
        invariant peak == seen == CellAt(v, schedule, n)
        decreases |schedule| - n
      {
        if n < |schedule| {
          peak := schedule[n].value;
        }
        assert peak == CellAt(v, schedule, n + 1);
        if peak == seen && !SpuriousAt(schedule, n) {
          peak := current;
          return;
        }
        seen := peak;
        n := n + 1;
      }
    }
  }
}
