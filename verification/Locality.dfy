/**
 The traversal benchmark: a successor array, sequential or shuffled by
 Fisher-Yates, and a traversal that follows it from node 0. The random generator is
 replaced by the sequence of its draws; the file's `N` and `LAPS` become parameters
 whose machine-integer bounds are stated.
 */
module Locality {
  import opened Common

  newtype int32 = x: int | -0x8000_0000 <= x < 0x8000_0000
  newtype int64 = x: int | -0x8000_0000_0000_0000 <= x < 0x8000_0000_0000_0000

  const N: int := 2_000_000
  const LAPS: int := 5

  // ---------------------------------------------------------------- Fisher-Yates

  function Swap(s: seq<nat>, i: nat, j: nat): (r: seq<nat>)
    requires i < |s| && j < |s|
  {
    s[i := s[j]][j := s[i]]
  }

  /** Draw k is the one made for position i - k, uniform over 0..i - k. */
  ghost predicate ValidDraws(i: nat, draws: seq<nat>) {
    |draws| == i && forall k :: 0 <= k < i ==> draws[k] <= i - k
  }

  /** The shuffle from position i down to 1. */
  function FisherYates(s: seq<nat>, i: nat, draws: seq<nat>): (r: seq<nat>)
    requires i <= |s| && (i == |s| ==> i == 0)
    requires ValidDraws(i, draws)
    ensures |r| == |s|
    decreases i
  {
    if i == 0 then s else FisherYates(Swap(s, i, draws[0]), i - 1, draws[1..])
  }

  function Identity(n: nat): (r: seq<nat>)
    ensures |r| == n && forall k :: 0 <= k < n ==> r[k] == k
  {
    seq(n, k => k)
  }

  /** The numbers 0..|s|-1, each exactly once. */
  ghost predicate Permutation(s: seq<nat>) {
    Distinct(s) && forall k :: 0 <= k < |s| ==> s[k] < |s|
  }

  lemma PermutationCovers(s: seq<nat>, x: nat)
    requires Permutation(s) && x < |s|
    ensures x in s
  {
    var t := s + [x];
    Pigeonhole(t, |s|);
    var i, j :| 0 <= i < j < |t| && t[i] == t[j];
    assert j == |s| && s[i] == x;
  }

  lemma {:induction false} ShufflePermutes(s: seq<nat>, i: nat, draws: seq<nat>)
    requires Permutation(s) && i <= |s| && (i == |s| ==> i == 0) && ValidDraws(i, draws)
    ensures Permutation(FisherYates(s, i, draws))
    ensures forall k :: i < k < |s| ==> FisherYates(s, i, draws)[k] == s[k]
    ensures Sum(FisherYates(s, i, draws)) == Sum(s)
    decreases i
  {
    if i > 0 {
      var j := draws[0];
      SumUpdate(s, i, s[j]);
      SumUpdate(s[i := s[j]], j, s[i]);
      ShufflePermutes(Swap(s, i, j), i - 1, draws[1..]);
    }
  }

  /** Two different lists of draws never produce the same arrangement. */
  lemma {:induction false} DrawsAreDetermined(s: seq<nat>, i: nat, d: seq<nat>, e: seq<nat>)
    requires Permutation(s) && i < |s| && ValidDraws(i, d) && ValidDraws(i, e)
    requires FisherYates(s, i, d) == FisherYates(s, i, e)
    ensures d == e
    decreases i
  {
    if i > 0 {
      FinalPosition(s, i, d);
      FinalPosition(s, i, e);
      assert d[0] == e[0];
      DrawsAreDetermined(Swap(s, i, d[0]), i - 1, d[1..], e[1..]);
      assert d == [d[0]] + d[1..] && e == [e[0]] + e[1..];
    }
  }

  /** The first draw decides for good what ends up at position i. */
  lemma FinalPosition(s: seq<nat>, i: nat, d: seq<nat>)
    requires Permutation(s) && 0 < i < |s| && ValidDraws(i, d)
    ensures FisherYates(s, i, d)[i] == s[d[0]] && Permutation(Swap(s, i, d[0]))
  {
    ShufflePermutes(Swap(s, i, d[0]), i - 1, d[1..]);
  }

  /** Every arrangement is produced by some list of draws. */
  lemma {:induction false} DrawsReachEverything(s: seq<nat>, i: nat, target: seq<nat>) returns (d: seq<nat>)
    requires Permutation(s) && Permutation(target) && i < |s| == |target|
    requires forall k :: i < k < |s| ==> target[k] == s[k]
    ensures ValidDraws(i, d) && FisherYates(s, i, d) == target
    decreases i
  {
    PermutationCovers(s, target[i]);
    var j: nat :| j < |s| && s[j] == target[i];
    assert j <= i;
    if i == 0 {
      d := [];
      assert s == target;
    } else {
      var rest := DrawsReachEverything(Swap(s, i, j), i - 1, target);
      d := [j] + rest;
      assert d[1..] == rest;
    }
  }

  ghost predicate Draws(n: nat, d: seq<nat>, target: seq<nat>)
    requires n > 0
  {
    ValidDraws(n - 1, d) && FisherYates(Identity(n), n - 1, d) == target
  }

  /** The shuffle is a bijection: each permutation arises from exactly one list of draws. */
  lemma ShuffleIsFair(n: nat, target: seq<nat>)
    requires n > 0 && |target| == n && Permutation(target)
    ensures exists d :: Draws(n, d, target)
    ensures forall d, e :: Draws(n, d, target) && Draws(n, e, target) ==> d == e
  {
    var d := DrawsReachEverything(Identity(n), n - 1, target);
    assert Draws(n, d, target);
    forall d, e | Draws(n, d, target) && Draws(n, e, target)
      ensures d == e
    {
      DrawsAreDetermined(Identity(n), n - 1, d, e);
    }
  }

  lemma {:induction false} IdentitySum(n: nat)
    ensures 2 * Sum(Identity(n)) == n * (n - 1)
  {
    if n > 0 {
      IdentitySum(n - 1);
      assert Identity(n) == Identity(n - 1) + [n - 1];
      SumAppend(Identity(n - 1), [n - 1]);
    }
  }

  lemma PermutationSum(p: seq<nat>)
    requires Permutation(p)
    ensures 2 * Sum(p) == |p| * (|p| - 1)
  {
    IdentitySum(|p|);
    if |p| > 0 {
      var d := DrawsReachEverything(Identity(|p|), |p| - 1, p);
      ShufflePermutes(Identity(|p|), |p| - 1, d);
    }
  }

  // ---------------------------------------------------------------- following successors

  /** The nodes visited in `steps` steps from x, x first. */
  function Trace(next: seq<nat>, x: nat, steps: nat): (t: seq<nat>)
    requires x < |next| && forall k :: 0 <= k < |next| ==> next[k] < |next|
    ensures |t| == steps && forall k :: 0 <= k < steps ==> t[k] < |next|
    decreases steps
  {
    if steps == 0 then [] else [x] + Trace(next, next[x], steps - 1)
  }

  /** Where `steps` steps from x lead. */
  function Follow(next: seq<nat>, x: nat, steps: nat): (y: nat)
    requires x < |next| && forall k :: 0 <= k < |next| ==> next[k] < |next|
    ensures y < |next|
    decreases steps
  {
    if steps == 0 then x else Follow(next, next[x], steps - 1)
  }

  /** From any node, one lap visits every node once and comes back: the array is one cycle. */
  ghost predicate SingleCycle(next: seq<nat>) {
    && (forall k :: 0 <= k < |next| ==> next[k] < |next|)
    && (forall x :: 0 <= x < |next| ==>
         Permutation(Trace(next, x, |next|)) && Follow(next, x, |next|) == x)
  }

  /** k modulo n, for the indices that go round the ring at most once. */
  function Wrap(k: nat, n: nat): (r: nat)
    requires k < 2 * n
    ensures r < n
  {
    if k < n then k else k - n
  }

  lemma WrapIsMod(k: nat, n: nat)
    requires k < 2 * n
    ensures Wrap(k, n) == k % n
  {
  }

  /** `next` links the elements of p in order and closes the ring. */
  ghost predicate Links(next: seq<nat>, p: seq<nat>) {
    |next| == |p| && Permutation(p) &&
    forall i :: 0 <= i < |p| ==> next[p[i]] == p[Wrap(i + 1, |p|)]
  }

  lemma LinksInRange(next: seq<nat>, p: seq<nat>)
    requires Links(next, p)
    ensures forall k :: 0 <= k < |next| ==> next[k] < |next|
  {
    forall k | 0 <= k < |next| ensures next[k] < |next| {
      PermutationCovers(p, k);
      var i :| 0 <= i < |p| && p[i] == k;
      assert next[p[i]] == p[Wrap(i + 1, |p|)];
    }
  }

  lemma {:induction false} TraceOnRing(next: seq<nat>, p: seq<nat>, i: nat, steps: nat)
    requires Links(next, p) && i < |p| && steps <= |p|
    requires forall k :: 0 <= k < |next| ==> next[k] < |next|
    ensures Follow(next, p[i], steps) == p[Wrap(i + steps, |p|)]
    ensures forall k :: 0 <= k < steps ==> Trace(next, p[i], steps)[k] == p[Wrap(i + k, |p|)]
    decreases steps
  {
    var n := |p|;
    if steps > 0 {
      var i' := Wrap(i + 1, n);
      assert next[p[i]] == p[i'];
      TraceOnRing(next, p, i', steps - 1);
      assert Wrap(i' + (steps - 1), n) == Wrap(i + steps, n);
      var t, rest := Trace(next, p[i], steps), Trace(next, p[i'], steps - 1);
      assert t == [p[i]] + rest;
      forall k | 0 <= k < steps ensures t[k] == p[Wrap(i + k, n)] {
        if k > 0 {
          assert t[k] == rest[k - 1];
          assert Wrap(i' + (k - 1), n) == Wrap(i + k, n);
        }
      }
    }
  }

  lemma LapIsPermutation(next: seq<nat>, p: seq<nat>, i: nat)
    requires Links(next, p) && i < |p|
    requires forall k :: 0 <= k < |next| ==> next[k] < |next|
    ensures Permutation(Trace(next, p[i], |p|)) && Follow(next, p[i], |p|) == p[i]
  {
    TraceOnRing(next, p, i, |p|);
    var t := Trace(next, p[i], |p|);
    forall j, k | 0 <= j < k < |t| ensures t[j] != t[k] {
      assert t[j] == p[Wrap(i + j, |p|)] && t[k] == p[Wrap(i + k, |p|)];
    }
  }

  lemma RingIsSingleCycle(next: seq<nat>, p: seq<nat>)
    requires Links(next, p)
    ensures SingleCycle(next)
  {
    LinksInRange(next, p);
    forall x | 0 <= x < |next|
      ensures Permutation(Trace(next, x, |next|)) && Follow(next, x, |next|) == x
    {
      PermutationCovers(p, x);
      var i :| 0 <= i < |p| && p[i] == x;
      LapIsPermutation(next, p, i);
    }
  }

  function Count(s: seq<nat>, x: nat): nat {
    if s == [] then 0 else (if s[0] == x then 1 else 0) + Count(s[1..], x)
  }

  lemma {:induction false} CountAppend(s: seq<nat>, t: seq<nat>, x: nat)
    ensures Count(s + t, x) == Count(s, x) + Count(t, x)
  {
    if s == [] {
      assert s + t == t;
    } else {
      assert (s + t)[1..] == s[1..] + t;
      CountAppend(s[1..], t, x);
    }
  }

  lemma {:induction false} CountDistinct(s: seq<nat>, x: nat)
    requires Distinct(s)
    ensures Count(s, x) == if x in s then 1 else 0
  {
    if s != [] {
      assert s == [s[0]] + s[1..];
      CountDistinct(s[1..], x);
    }
  }

  lemma {:induction false} TraceAppend(next: seq<nat>, x: nat, a: nat, b: nat)
    requires x < |next| && forall k :: 0 <= k < |next| ==> next[k] < |next|
    ensures Trace(next, x, a + b) == Trace(next, x, a) + Trace(next, Follow(next, x, a), b)
    ensures Follow(next, x, a + b) == Follow(next, Follow(next, x, a), b)
    decreases a
  {
    if a > 0 {
      TraceAppend(next, next[x], a - 1, b);
    } else {
      assert Trace(next, x, 0) + Trace(next, x, b) == Trace(next, x, b);
    }
  }

  /** t meets each of the nodes 0..n-1 exactly `times` times. */
  ghost predicate MeetsEach(t: seq<nat>, n: nat, times: nat) {
    forall v :: 0 <= v < n ==> Count(t, v) == times
  }

  lemma OneLap(next: seq<nat>, x: nat)
    requires SingleCycle(next) && x < |next|
    ensures MeetsEach(Trace(next, x, |next|), |next|, 1)
    ensures 2 * Sum(Trace(next, x, |next|)) == |next| * (|next| - 1)
    ensures Follow(next, x, |next|) == x
  {
    var lap := Trace(next, x, |next|);
    PermutationSum(lap);
    forall v | 0 <= v < |next| ensures Count(lap, v) == 1 {
      PermutationCovers(lap, v);
      CountDistinct(lap, v);
    }
  }

  /** a added up k times. */
  function Times(a: int, k: nat): int {
    if k == 0 then 0 else a + Times(a, k - 1)
  }

  lemma {:induction false} TimesIsProduct(a: int, k: nat)
    ensures Times(a, k) == a * k
  {
    if k > 0 {
      TimesIsProduct(a, k - 1);
      assert a * k == a + a * (k - 1);
    }
  }

  lemma {:induction false} LapByLap(next: seq<nat>, x: nat, laps: nat)
    requires SingleCycle(next) && x < |next|
    ensures Times(|next|, laps) >= 0
    ensures MeetsEach(Trace(next, x, Times(|next|, laps)), |next|, laps)
    ensures Sum(Trace(next, x, Times(|next|, laps))) == Times(Sum(Trace(next, x, |next|)), laps)
    ensures Follow(next, x, Times(|next|, laps)) == x
    decreases laps
  {
    if laps > 0 {
      OneLap(next, x);
      LapByLap(next, x, laps - 1);
      AfterLap(next, x, Times(|next|, laps - 1), laps - 1);
    }
  }

  /** Any number of laps over a single cycle visits each node once per lap. */
  lemma LapsVisitEvenly(next: seq<nat>, x: nat, laps: nat)
    requires SingleCycle(next) && x < |next|
    ensures MeetsEach(Trace(next, x, |next| * laps), |next|, laps)
    ensures 2 * Sum(Trace(next, x, |next| * laps)) == (|next| * (|next| - 1)) * laps
    ensures Follow(next, x, |next| * laps) == x
  {
    LapByLap(next, x, laps);
    TimesIsProduct(|next|, laps);
    OneLap(next, x);
    TwiceTimes(Sum(Trace(next, x, |next|)), |next| * (|next| - 1), laps);
  }

  lemma TwiceTimes(a: int, b: int, k: nat)
    requires 2 * a == b
    ensures 2 * Times(a, k) == b * k
  {
    TimesIsProduct(a, k);
  }

  /** One lap followed by `rest` more steps. */
  lemma AfterLap(next: seq<nat>, x: nat, rest: nat, count: nat)
    requires SingleCycle(next) && x < |next| && Follow(next, x, |next|) == x
    requires MeetsEach(Trace(next, x, |next|), |next|, 1)
    requires MeetsEach(Trace(next, x, rest), |next|, count)
    ensures MeetsEach(Trace(next, x, |next| + rest), |next|, count + 1)
    ensures Sum(Trace(next, x, |next| + rest)) == Sum(Trace(next, x, |next|)) + Sum(Trace(next, x, rest))
    ensures Follow(next, x, |next| + rest) == Follow(next, x, rest)
  {
    TraceAppend(next, x, |next|, rest);
    SumAppend(Trace(next, x, |next|), Trace(next, x, rest));
    var t := Trace(next, x, |next| + rest);
    forall v | 0 <= v < |next| ensures Count(t, v) == count + 1 {
      CountAppend(Trace(next, x, |next|), Trace(next, x, rest), v);
    }
  }

  // ---------------------------------------------------------------- the program

  function Nats(s: seq<int32>): (r: seq<nat>)
    requires forall k :: 0 <= k < |s| ==> 0 <= s[k]
    ensures |r| == |s| && forall k :: 0 <= k < |s| ==> r[k] == s[k] as int
  {
    seq(|s|, k requires 0 <= k < |s| => s[k] as int)
  }

  /** The order in which `Build` links the nodes. */
  function Order(n: nat, shuffled: bool, draws: seq<nat>): (p: seq<nat>)
    requires n > 0 && (shuffled ==> ValidDraws(n - 1, draws))
    ensures |p| == n
  {
    if shuffled then FisherYates(Identity(n), n - 1, draws) else Identity(n)
  }

  lemma OrderPermutes(n: nat, shuffled: bool, draws: seq<nat>)
    requires n > 0 && (shuffled ==> ValidDraws(n - 1, draws))
    ensures Permutation(Order(n, shuffled, draws))
  {
    if shuffled {
      ShufflePermutes(Identity(n), n - 1, draws);
    }
  }

  /** The shuffle in place, in the file's loop order. */
  method Shuffle(perm: array<int64>, draws: seq<nat>)
    requires 0 < perm.Length <= 0x8000_0000 && ValidDraws(perm.Length - 1, draws)
    requires forall k :: 0 <= k < perm.Length ==> perm[k] as int == k
    modifies perm
    ensures forall k :: 0 <= k < perm.Length ==>
              perm[k] as int == FisherYates(Identity(perm.Length), perm.Length - 1, draws)[k]
  {
    ghost var n := perm.Length;
    ghost var cur := Identity(n);
    var i := perm.Length - 1;
    while i > 0
      invariant 0 <= i < n
      invariant |cur| == n && forall k :: 0 <= k < n ==> perm[k] as int == cur[k]
      invariant FisherYates(cur, i, draws[n - 1 - i..]) == FisherYates(Identity(n), n - 1, draws)
    {
      var j := draws[perm.Length - 1 - i];
      assert draws[n - 1 - i..][0] == j && draws[n - 1 - i..][1..] == draws[n - i..];
      perm[i], perm[j] := perm[j], perm[i];
      cur := Swap(cur, i, j);
      i := i - 1;
    }
  }

  /** The successor array of the order in `perm`. */
  method LinkInOrder(perm: array<int64>, next: array<int32>)
    requires 0 < perm.Length == next.Length <= 0x8000_0000
    requires forall k :: 0 <= k < perm.Length ==> 0 <= perm[k]
    requires Permutation(Nats64(perm[..]))
    modifies next
    ensures forall k :: 0 <= k < next.Length ==> 0 <= next[k]
    ensures Links(Nats(next[..]), Nats64(perm[..]))
  {
    var n := perm.Length;
    ghost var p := Nats64(perm[..]);
    for i := 0 to n
      invariant forall k :: 0 <= k < i ==> next[p[k]] as int == p[Wrap(k + 1, n)]
    {
      WrapIsMod(i + 1, n);
      next[perm[i] as int] := perm[(i + 1) % n] as int32;
    }
    forall v | 0 <= v < n ensures 0 <= next[v] {
      PermutationCovers(p, v);
      var k :| 0 <= k < n && p[k] == v;
      assert next[p[k]] as int == p[Wrap(k + 1, n)];
    }
  }

  function Nats64(s: seq<int64>): (r: seq<nat>)
    requires forall k :: 0 <= k < |s| ==> 0 <= s[k]
    ensures |r| == |s| && forall k :: 0 <= k < |s| ==> r[k] == s[k] as int
  {
    seq(|s|, k requires 0 <= k < |s| => s[k] as int)
  }

  method Iota(n: int) returns (perm: array<int64>)
    requires 0 < n <= 0x8000_0000
    ensures fresh(perm) && perm.Length == n && forall k :: 0 <= k < n ==> perm[k] as int == k
  {
    perm := new int64[n];
    for i := 0 to n
      invariant forall k :: 0 <= k < i ==> perm[k] as int == k
    {
      perm[i] := i as int64;
    }
  }

  /** The successor array, in either layout. */
  method BuildNext(n: int, shuffled: bool, draws: seq<nat>) returns (next: array<int32>)
    requires 0 < n <= 0x8000_0000 && (shuffled ==> ValidDraws(n - 1, draws))
    ensures fresh(next) && next.Length == n && forall k :: 0 <= k < n ==> 0 <= next[k]
    ensures Links(Nats(next[..]), Order(n, shuffled, draws))
  {
    next := new int32[n];
    if !shuffled {
      for i := 0 to n
        invariant forall k :: 0 <= k < i ==> next[k] as int == Wrap(k + 1, n)
      {
        WrapIsMod(i + 1, n);
        next[i] := ((i + 1) % n) as int32;
      }
    } else {
      var perm := Iota(n);
      Shuffle(perm, draws);
      OrderPermutes(n, shuffled, draws);
      assert Nats64(perm[..]) == Order(n, shuffled, draws);
      LinkInOrder(perm, next);
    }
  }

  method Build(n: int, shuffled: bool, draws: seq<nat>) returns (values: array<int32>, next: array<int32>)
    requires 0 < n <= 0x8000_0000 && (shuffled ==> ValidDraws(n - 1, draws))
    ensures fresh(values) && fresh(next) && values.Length == next.Length == n
    ensures forall k :: 0 <= k < n ==> values[k] as int == k
    ensures forall k :: 0 <= k < n ==> 0 <= next[k]
    ensures Links(Nats(next[..]), Order(n, shuffled, draws))
    ensures SingleCycle(Nats(next[..]))
  {
    next := BuildNext(n, shuffled, draws);
    RingIsSingleCycle(Nats(next[..]), Order(n, shuffled, draws));
    ghost var built := next[..];
    values := new int32[n];
    for i := 0 to n
      invariant next[..] == built
      invariant forall k :: 0 <= k < i ==> values[k] as int == k
    {
      values[i] := i as int32;
    }
  }

  function Visited(values: seq<int32>, t: seq<nat>): (r: seq<int>)
    requires forall k :: 0 <= k < |t| ==> t[k] < |values|
    ensures |r| == |t|
  {
    seq(|t|, k requires 0 <= k < |t| => values[t[k]] as int)
  }

  lemma SumPrefix(s: seq<int>, k: nat)
    requires k <= |s| && forall i :: 0 <= i < |s| ==> s[i] >= 0
    ensures 0 <= Sum(s[..k]) <= Sum(s)
  {
    assert s == s[..k] + s[k..];
    SumAppend(s[..k], s[k..]);
    SumNonNegative(s[..k]);
    SumNonNegative(s[k..]);
  }

  /** Sums the values met in n * laps steps from node 0, in 64-bit arithmetic that never overflows. */
  method Traverse(values: array<int32>, next: array<int32>, laps: nat) returns (total: int64)
    requires 0 < next.Length == values.Length
    requires forall k :: 0 <= k < next.Length ==> 0 <= next[k] as int < next.Length && 0 <= values[k]
    requires next.Length * laps < 0x8000_0000_0000_0000
    requires Sum(Visited(values[..], Trace(Nats(next[..]), 0, next.Length * laps))) < 0x8000_0000_0000_0000
    ensures total as int == Sum(Visited(values[..], Trace(Nats(next[..]), 0, next.Length * laps)))
  {
    ghost var succ, vals := Nats(next[..]), values[..];
    var steps := (next.Length * laps) as int64;
    ghost var t := Trace(succ, 0, steps as int);
    ghost var met := Visited(vals, t);
    total := 0;
    var idx: int32 := 0;
    var s: int64 := 0;
    while s < steps
      invariant 0 <= s <= steps && 0 <= idx
      invariant idx as int == Follow(succ, 0, s as int)
      invariant total as int == Sum(met[..s as int])
    {
      var k: nat := s as int;
      TraceAppend(succ, 0, k, 1);
      TraceAppend(succ, 0, k, steps as int - k);
      assert t[k] == idx as int;
      assert met[..k + 1] == met[..k] + [values[idx as int] as int];
      SumAppend(met[..k], [values[idx as int] as int]);
      SumPrefix(met, k + 1);
      total := total + values[idx as int] as int64;
      idx := next[idx as int];
      s := s + 1;
    }
    assert met[..steps as int] == met;
  }

  /** Both layouts give the same total, laps * n * (n - 1) / 2, whatever was drawn. */
  method Bench(n: int, laps: nat, shuffled: bool, draws: seq<nat>) returns (total: int64)
    requires 0 < n <= 0x8000_0000 && (shuffled ==> ValidDraws(n - 1, draws))
    requires n * laps < 0x8000_0000_0000_0000
    requires (n * (n - 1)) * laps < 2 * 0x8000_0000_0000_0000
    ensures 2 * total as int == (n * (n - 1)) * laps
  {
    var values, next := Build(n, shuffled, draws);
    ghost var succ := Nats(next[..]);
    LapsVisitEvenly(succ, 0, laps);
    var t := Trace(succ, 0, n * laps);
    assert Visited(values[..], t) == t;
    total := Traverse(values, next, laps);
  }

  /** The file's own constants meet the bounds of `Bench`. */
  lemma FileConstantsFit()
    ensures 0 < N <= 0x8000_0000 && N * LAPS < 0x8000_0000_0000_0000
    ensures (N * (N - 1)) * LAPS < 2 * 0x8000_0000_0000_0000
  {
  }
}
