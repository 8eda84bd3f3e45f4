/** Small facts about sequences, and row locks, that several models share. */
module Common {

  datatype Option<+T> = None | Some(value: T)

  function Min(x: nat, y: nat): nat { if x <= y then x else y }

  function Max(x: nat, y: nat): nat { if x <= y then y else x }

  function Sum(s: seq<int>): int {
    if s == [] then 0 else s[0] + Sum(s[1..])
  }

  lemma {:induction false} SumUpdate(s: seq<int>, i: nat, v: int)
    requires i < |s|
    ensures Sum(s[i := v]) == Sum(s) - s[i] + v
  {
    if i == 0 {
      assert s[0 := v][1..] == s[1..];
    } else {
      assert s[i := v][1..] == s[1..][i - 1 := v];
      SumUpdate(s[1..], i - 1, v);
    }
  }

  lemma {:induction false} SumAppend(s: seq<int>, t: seq<int>)
    ensures Sum(s + t) == Sum(s) + Sum(t)
  {
    if s == [] {
      assert s + t == t;
    } else {
      assert (s + t)[1..] == s[1..] + t;
      SumAppend(s[1..], t);
    }
  }

  lemma {:induction false} SumBounds(s: seq<int>, lo: int, hi: int)
    requires forall i :: 0 <= i < |s| ==> lo <= s[i] <= hi
    ensures lo * |s| <= Sum(s) <= hi * |s|
  {
    if s != [] {
      SumBounds(s[1..], lo, hi);
      assert lo * |s| == lo + lo * |s[1..]|;
      assert hi * |s| == hi + hi * |s[1..]|;
    }
  }

  /** A sequence of length n is a listing of 0..n-1 without repetition. */
  ghost predicate Distinct<T(!new)>(s: seq<T>) {
    forall i, j :: 0 <= i < j < |s| ==> s[i] != s[j]
  }

  /** More than n numbers below n cannot all be different. */
  lemma {:induction false} Pigeonhole(s: seq<nat>, n: nat)
    requires forall i :: 0 <= i < |s| ==> s[i] < n
    requires |s| > n
    ensures exists i, j :: 0 <= i < j < |s| && s[i] == s[j]
  {
    assert s[0] < n;
    if n > 0 {
      if k, l :| 0 <= k < l < |s| && s[k] == n - 1 == s[l] {
      } else if k :| 0 <= k < |s| && s[k] == n - 1 {
        var t := s[..k] + s[k + 1..];
        Pigeonhole(t, n - 1);
        var i, j :| 0 <= i < j < |t| && t[i] == t[j];
        var i', j' := if i < k then i else i + 1, if j < k then j else j + 1;
        assert s[i'] == s[j'];
      } else {
        Pigeonhole(s, n - 1);
      }
    }
  }

  lemma {:induction false} SumNonNegative(s: seq<int>)
    requires forall i :: 0 <= i < |s| ==> s[i] >= 0
    ensures Sum(s) >= 0
  {
    if s != [] {
      SumNonNegative(s[1..]);
    }
  }

  /** The holders of some rows once w has let go of all of its own. */
  function ReleaseLocks(owner: seq<Option<nat>>, w: nat): (r: seq<Option<nat>>)
    ensures |r| == |owner|
    ensures forall i :: 0 <= i < |r| ==> r[i] == if owner[i] == Some(w) then None else owner[i]
  {
    seq(|owner|, i requires 0 <= i < |owner| => if owner[i] == Some(w) then None else owner[i])
  }

  method ReleaseInPlace(owner: array<Option<nat>>, w: nat)
    modifies owner
    ensures owner[..] == ReleaseLocks(old(owner[..]), w)
  {
    for i := 0 to owner.Length
      invariant forall j :: 0 <= j < i ==> owner[j] == ReleaseLocks(old(owner[..]), w)[j]
      invariant forall j :: i <= j < owner.Length ==> owner[j] == old(owner[..])[j]
    {
      if owner[i] == Some(w) {
        owner[i] := None;
      }
    }
    assert owner[..] == ReleaseLocks(old(owner[..]), w);
  }
}
