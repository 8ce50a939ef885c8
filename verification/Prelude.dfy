/** Definitions shared by every component: optional values, machine-word subtraction,
    alignment, and sums over sequences and maps. */
module Prelude {

  datatype Option<+T> = None | Some(value: T)

  /** The number of values of an unsigned 64-bit word. */
  const WORD: int := 0x1_0000_0000_0000_0000

  function Max(a: int, b: int): int {
    if a < b then b else a
  }

  function Min(a: int, b: int): int {
    if a < b then a else b
  }

  /** Unsigned 64-bit subtraction as the machine performs it: below zero it wraps around. */
  function SubWord(v: int, d: int): (r: int)
    ensures 0 <= v ==> 0 <= r
  {
    if d <= v then v - d else (v - d) % WORD
  }

  // ----- alignment -----

  /** The number of chunks of `a` bytes that hold `v` bytes. */
  function CeilDiv(v: nat, a: nat): (n: nat)
    requires 0 < a
    ensures v <= n * a < v + a
  {
    var n := (v + a - 1) / a;
    assert v + a - 1 == n * a + (v + a - 1) % a;
    n
  }

  /** The least multiple of `a` that is at or above `v`. */
  function AlignUp(v: nat, a: nat): (r: nat)
    requires 0 < a
    ensures v <= r < v + a
  {
    CeilDiv(v, a) * a
  }

  lemma MulMonotone(a: int, b: int, c: nat)
    requires a <= b
    ensures a * c <= b * c
  {
  }

  lemma AlignUpIsLeast(v: nat, a: nat, m: nat)
    requires 0 < a && v <= m * a
    ensures AlignUp(v, a) <= m * a
  {
    var n := CeilDiv(v, a);
    if m < n {
      MulMonotone(m, n - 1, a);
    } else {
      MulMonotone(n, m, a);
    }
  }

  /** `n` is the least multiple of `a` that holds `v` bytes. */
  predicate Rounded(n: nat, v: nat, a: nat) {
    0 < a && n % a == 0 && v <= n && forall m: nat :: m % a == 0 && v <= m ==> n <= m
  }

  lemma DivModUnique(k: int, b: int, q: int, r: int)
    requires 0 < b && 0 <= r < b && k == q * b + r
    ensures k / b == q && k % b == r
  {
    var d := k / b - q;
    assert k == (k / b) * b + k % b;
    assert d * b == r - k % b;
    assert d >= 1 ==> d * b >= b;
    assert d <= -1 ==> d * b <= -b;
    assert d == 0;
  }

  lemma AlignUpIsRounded(v: nat, a: nat)
    requires 0 < a
    ensures Rounded(AlignUp(v, a), v, a)
  {
    DivModUnique(AlignUp(v, a), a, CeilDiv(v, a), 0);
    forall m: nat | m % a == 0 && v <= m
      ensures AlignUp(v, a) <= m
    {
      assert m == m / a * a + m % a;
      AlignUpIsLeast(v, a, m / a);
    }
  }

  lemma RoundedIsAlignUp(n: nat, v: nat, a: nat)
    requires Rounded(n, v, a)
    ensures n == AlignUp(v, a)
  {
    AlignUpIsRounded(v, a);
  }

  /** An index below `v` falls into one of the chunks that hold `v`. */
  lemma ChunkOfIndex(k: nat, v: nat, a: nat)
    requires 0 < a && k < v
    ensures 0 <= k / a < CeilDiv(v, a) && 0 <= k % a < a
  {
    var q, n := k / a, CeilDiv(v, a);
    assert k == q * a + k % a;
    if n <= q { MulMonotone(n, q, a); }
  }

  /** Two ranges of addresses do not overlap. */
  predicate RangesApart(x: nat, y: nat, xLen: nat, yLen: nat) {
    x + xLen <= y || y + yLen <= x
  }

  // ----- sums over sequences -----

  ghost function SeqSum<T>(s: seq<T>, w: T -> int): int {
    if s == [] then 0 else SeqSum(s[..|s| - 1], w) + w(s[|s| - 1])
  }

  lemma SeqSumAppend<T>(s: seq<T>, x: T, w: T -> int)
    ensures SeqSum(s + [x], w) == SeqSum(s, w) + w(x)
  {
    assert (s + [x])[..|s|] == s;
  }

  lemma SeqSumSingle<T>(x: T)
    ensures forall w: T -> int :: SeqSum([x], w) == w(x)
  {
    assert [x][..0] == [];
  }

  lemma {:induction false} SeqSumConcat<T>(s: seq<T>, t: seq<T>, w: T -> int)
    ensures SeqSum(s + t, w) == SeqSum(s, w) + SeqSum(t, w)
  {
    if t == [] {
      assert s + t == s;
    } else {
      var u := t[..|t| - 1];
      SeqSumConcat(s, u, w);
      SeqSumAppend(s + u, t[|t| - 1], w);
      assert s + t == s + u + [t[|t| - 1]];
    }
  }

  function RemoveAt<T>(s: seq<T>, i: nat): seq<T>
    requires i < |s|
  {
    s[..i] + s[i + 1..]
  }

  lemma SplitAt<T>(s: seq<T>, i: nat)
    requires i < |s|
    ensures s == s[..i] + [s[i]] + s[i + 1..]
  {
  }

  lemma SeqSumRemoveAt<T>(s: seq<T>, i: nat, w: T -> int)
    requires i < |s|
    ensures SeqSum(RemoveAt(s, i), w) == SeqSum(s, w) - w(s[i])
  {
    var a, b := s[..i], s[i + 1..];
    SplitAt(s, i);
    SeqSumConcat(a, b, w);
    SeqSumConcat(a + [s[i]], b, w);
    SeqSumAppend(a, s[i], w);
  }

  lemma {:induction false} SeqSumSplit<T>(s: seq<T>, w: T -> int, u: T -> int, v: T -> int)
    requires forall x :: x in s ==> w(x) == u(x) + v(x)
    ensures SeqSum(s, w) == SeqSum(s, u) + SeqSum(s, v)
  {
    if s != [] {
      SeqSumSplit(s[..|s| - 1], w, u, v);
    }
  }

  lemma {:induction false} SeqSumEqual<T>(s: seq<T>, u: T -> int, v: T -> int)
    requires forall x :: x in s ==> u(x) == v(x)
    ensures SeqSum(s, u) == SeqSum(s, v)
  {
    if s != [] {
      SeqSumEqual(s[..|s| - 1], u, v);
    }
  }

  lemma {:induction false} SeqSumNonNegative<T>(s: seq<T>, w: T -> int)
    requires forall x :: x in s ==> w(x) >= 0
    ensures SeqSum(s, w) >= 0
    ensures forall x :: x in s ==> w(x) <= SeqSum(s, w)
  {
    if s != [] {
      SeqSumNonNegative(s[..|s| - 1], w);
      assert s == s[..|s| - 1] + [s[|s| - 1]];
    }
  }

  // ----- sums over the values of a map -----

  ghost function MapSum<K, V>(m: map<K, V>, w: V -> int): int {
    if m == map[] then 0 else
      var k :| k in m;
      w(m[k]) + MapSum(m - {k}, w)
  }

  lemma {:induction false} MapSumRemove<K, V>(m: map<K, V>, k: K, w: V -> int)
    requires k in m
    ensures MapSum(m, w) == w(m[k]) + MapSum(m - {k}, w)
    decreases |m|
  {
    var j :| j in m && MapSum(m, w) == w(m[j]) + MapSum(m - {j}, w);
    if j != k {
      MapSumRemove(m - {j}, k, w);
      MapSumRemove(m - {k}, j, w);
      assert m - {j} - {k} == m - {k} - {j};
    }
  }

  lemma MapSumInsert<K, V>(m: map<K, V>, k: K, v: V, w: V -> int)
    requires k !in m
    ensures MapSum(m[k := v], w) == MapSum(m, w) + w(v)
  {
    MapSumRemove(m[k := v], k, w);
    assert m[k := v] - {k} == m;
  }

  lemma MapSumUpdate<K, V>(m: map<K, V>, k: K, v: V, w: V -> int)
    requires k in m
    ensures MapSum(m[k := v], w) == MapSum(m, w) - w(m[k]) + w(v)
  {
    MapSumRemove(m, k, w);
    MapSumRemove(m[k := v], k, w);
    assert m[k := v] - {k} == m - {k};
  }

  lemma {:induction false} MapSumLeq<K, V>(m: map<K, V>, u: V -> int, v: V -> int)
    requires forall k :: k in m ==> u(m[k]) <= v(m[k])
    ensures MapSum(m, u) <= MapSum(m, v)
    decreases |m|
  {
    if m != map[] {
      var k :| k in m;
      MapSumRemove(m, k, u);
      MapSumRemove(m, k, v);
      MapSumLeq(m - {k}, u, v);
    }
  }

  lemma {:induction false} MapSumAdd<K, V>(m: map<K, V>, w: V -> int, u: V -> int, v: V -> int)
    requires forall k :: k in m ==> w(m[k]) == u(m[k]) + v(m[k])
    ensures MapSum(m, w) == MapSum(m, u) + MapSum(m, v)
    decreases |m|
  {
    if m != map[] {
      var k :| k in m;
      MapSumRemove(m, k, w);
      MapSumRemove(m, k, u);
      MapSumRemove(m, k, v);
      MapSumAdd(m - {k}, w, u, v);
    }
  }

  lemma {:induction false} MapSumNonNegative<K, V>(m: map<K, V>, w: V -> int)
    requires forall k :: k in m ==> w(m[k]) >= 0
    ensures MapSum(m, w) >= 0
    ensures forall k :: k in m ==> w(m[k]) <= MapSum(m, w)
    decreases |m|
  {
    if m != map[] {
      forall k | k in m
        ensures w(m[k]) <= MapSum(m, w)
      {
        MapSumRemove(m, k, w);
        MapSumNonNegative(m - {k}, w);
      }
      var k :| k in m;
      assert 0 <= w(m[k]) <= MapSum(m, w);
    }
  }
}
