/**
 How fast a bounded pool can serve an overload. A schedule says for each served client
 which connection it held and from which tick; every client holds for the same time, and a
 connection serves one client at a time.
 */
module LittlesLaw {
  import opened Common

  datatype Hold = Hold(conn: int, start: nat)

  ghost predicate Feasible(holds: seq<Hold>, size: nat, hold: nat) {
    && (forall i :: 0 <= i < |holds| ==> 1 <= holds[i].conn <= size)
    && (forall i, j :: 0 <= i < |holds| && 0 <= j < |holds| && i != j && holds[i].conn == holds[j].conn ==>
         holds[i].start + hold <= holds[j].start || holds[j].start + hold <= holds[i].start)
  }

  ghost predicate DoneBy(holds: seq<Hold>, hold: nat, end: nat) {
    forall i :: 0 <= i < |holds| ==> holds[i].start + hold <= end
  }

  /** The end of the last hold. */
  ghost predicate FinishesAt(holds: seq<Hold>, hold: nat, end: nat) {
    DoneBy(holds, hold, end) && exists i :: 0 <= i < |holds| && holds[i].start + hold == end
  }

  predicate BusyWith(holds: seq<Hold>, hold: nat, c: int, t: nat, j: nat) {
    j < |holds| && holds[j].conn == c && holds[j].start <= t < holds[j].start + hold
  }

  ghost predicate Busy(holds: seq<Hold>, hold: nat, c: int, t: nat) {
    exists j :: BusyWith(holds, hold, c, t, j)
  }

  /** Every connection is busy at every tick before the given one. */
  ghost predicate AllBusy(holds: seq<Hold>, size: nat, hold: nat, end: nat) {
    forall c, t :: 1 <= c <= size && 0 <= t < end ==> Busy(holds, hold, c, t)
  }

  /**
   All clients arrive at tick 0 and a connection is handed over the moment it is free: nobody waits beside a free
   one.
   */
  ghost predicate ZeroDelay(holds: seq<Hold>, size: nat, hold: nat) {
    forall i :: 0 <= i < |holds| ==> AllBusy(holds, size, hold, holds[i].start)
  }

  // ---------------------------------------------------------------- counting cells

  /** The pairs (x, y) with x < a and y < b. */
  function Cells(a: nat, b: nat): set<(nat, nat)> {
    set x: nat, y: nat | x < a && y < b :: (x, y)
  }

  function Row(x: nat, b: nat): set<(nat, nat)> {
    set y: nat | y < b :: (x, y)
  }

  lemma {:induction false} RowSize(x: nat, b: nat)
    ensures |Row(x, b)| == b
    decreases b
  {
    if b == 0 {
      assert Row(x, 0) == {};
    } else {
      assert Row(x, b) == Row(x, b - 1) + {(x, b - 1)};
      RowSize(x, b - 1);
    }
  }

  lemma MulStep(a: int, b: int)
    ensures a * b == (a - 1) * b + b
  {
  }

  lemma {:induction false} CellsSize(a: nat, b: nat)
    ensures |Cells(a, b)| == a * b
    decreases a
  {
    if a == 0 {
      assert Cells(0, b) == {};
    } else {
      var rest, row := Cells(a - 1, b), Row(a - 1, b);
      assert Cells(a, b) == rest + row && rest !! row;
      CellsSize(a - 1, b);
      RowSize(a - 1, b);
      assert |Cells(a, b)| == |rest| + |row|;
      MulStep(a, b);
    }
  }

  /** A one-to-one map into T has at most |T| keys. */
  lemma {:induction false} OneToOne(m: map<(nat, nat), (nat, nat)>, T: set<(nat, nat)>)
    requires forall x :: x in m ==> m[x] in T
    requires forall x, y :: x in m && y in m && m[x] == m[y] ==> x == y
    ensures |m.Keys| <= |T|
    decreases |m.Keys|
  {
    if m.Keys != {} {
      var x :| x in m.Keys;
      var less := m - {x};
      assert less.Keys == m.Keys - {x};
      OneToOne(less, T - {m[x]});
    }
  }

  /** A connection serves one client in one tick of its service at a time. */
  lemma SameService(holds: seq<Hold>, size: nat, hold: nat, x: (nat, nat), y: (nat, nat))
    requires Feasible(holds, size, hold) && x in Cells(|holds|, hold) && y in Cells(|holds|, hold)
    requires holds[x.0].conn == holds[y.0].conn && holds[x.0].start + x.1 == holds[y.0].start + y.1
    ensures x == y
  {
  }

  /** Little's Law floor: whatever the schedule, n holds on `size` connections take at least n * hold / size ticks. */
  lemma MakespanFloor(holds: seq<Hold>, size: nat, hold: nat, end: nat)
    requires Feasible(holds, size, hold) && DoneBy(holds, hold, end)
    ensures end * size >= |holds| * hold
  {
    // each tick of each client's service is a different (tick, connection) cell
    var cells := Cells(|holds|, hold);
    var used := map k | k in cells :: (holds[k.0].start + k.1, holds[k.0].conn - 1);
    assert used.Keys == cells;
    forall x, y | x in used && y in used && used[x] == used[y] ensures x == y {
      SameService(holds, size, hold, x, y);
    }
    assert |cells| <= |Cells(end, size)| by {
      OneToOne(used, Cells(end, size));
    }
    CellsSize(|holds|, hold);
    CellsSize(end, size);
  }

  /** Without delay every hold starts where another one on its connection ended. */
  lemma {:induction false} StartsAreMultiples(holds: seq<Hold>, size: nat, hold: nat, i: nat) returns (q: nat)
    requires hold > 0 && Feasible(holds, size, hold) && ZeroDelay(holds, size, hold) && i < |holds|
    ensures holds[i].start == q * hold
    decreases holds[i].start
  {
    if holds[i].start == 0 {
      q := 0;
    } else {
      var c, t := holds[i].conn, holds[i].start - 1;
      assert Busy(holds, hold, c, t);
      var j :| BusyWith(holds, hold, c, t, j);
      var r := StartsAreMultiples(holds, size, hold, j);
      q := r + 1;
      assert q * hold == r * hold + hold;
    }
  }

  /** Who serves whom in cell (t, c), and in which tick of the service. */
  ghost predicate Fills(holds: seq<Hold>, hold: nat, t: nat, c: nat, j: nat, o: nat) {
    BusyWith(holds, hold, c, t, j) && o == t - holds[j].start
  }

  ghost function Filler(holds: seq<Hold>, size: nat, hold: nat, end: nat, cell: (nat, nat)): (k: (nat, nat))
    requires AllBusy(holds, size, hold, end) && cell in Cells(end, size)
    ensures Fills(holds, hold, cell.0, cell.1 + 1, k.0, k.1)
  {
    assert Busy(holds, hold, cell.1 + 1, cell.0);
    var j: nat :| BusyWith(holds, hold, cell.1 + 1, cell.0, j);
    (j, cell.0 - holds[j].start)
  }

  /** What keeps every connection busy until `end`, and any service outside that, fits into the n holds. */
  lemma Packing(holds: seq<Hold>, size: nat, hold: nat, end: nat, unused: set<(nat, nat)>)
    requires AllBusy(holds, size, hold, end) && unused <= Cells(|holds|, hold)
    requires forall k :: k in unused ==> holds[k.0].start >= end
    ensures end * size + |unused| <= |holds| * hold
  {
    var cells := Cells(end, size);
    var filled := map cell | cell in cells :: Filler(holds, size, hold, end, cell);
    assert filled.Keys == cells;
    var others := Cells(|holds|, hold) - unused;
    forall cell | cell in cells ensures filled[cell] in others {
      var k := filled[cell];
      assert Fills(holds, hold, cell.0, cell.1 + 1, k.0, k.1);
    }
    forall x, y | x in filled && y in filled && filled[x] == filled[y] ensures x == y {
      var k := filled[x];
      assert Fills(holds, hold, x.0, x.1 + 1, k.0, k.1) && Fills(holds, hold, y.0, y.1 + 1, k.0, k.1);
    }
    OneToOne(filled, others);
    CellsSize(end, size);
    CellsSize(|holds|, hold);
  }

  /** Everything before the start of hold i, and hold i itself, fits into the n holds. */
  lemma WorkBefore(holds: seq<Hold>, size: nat, hold: nat, i: nat)
    requires ZeroDelay(holds, size, hold) && i < |holds|
    ensures holds[i].start * size + hold <= |holds| * hold
  {
    assert Row(i, hold) <= Cells(|holds|, hold);
    Packing(holds, size, hold, holds[i].start, Row(i, hold));
    RowSize(i, hold);
  }

  /** Rounds needed for n clients on `size` connections: n / size rounded up. */
  function Rounds(n: nat, size: nat): nat
    requires size > 0
  {
    if n == 0 then 0 else if n <= size then 1 else 1 + Rounds(n - size, size)
  }

  lemma {:induction false} RoundsFromBounds(n: nat, size: nat, q: nat)
    requires size > 0 && q * size < n <= q * size + size
    ensures Rounds(n, size) == q + 1
    decreases q
  {
    if q > 0 {
      assert q * size == (q - 1) * size + size;
      RoundsFromBounds(n - size, size, q - 1);
    }
  }

  /** It is the least number of rounds that offer n places. */
  lemma {:induction false} RoundsIsLeast(n: nat, size: nat)
    requires size > 0 && n > 0
    ensures (Rounds(n, size) - 1) * size < n <= Rounds(n, size) * size
    decreases n
  {
    if n > size {
      RoundsIsLeast(n - size, size);
      MulStep(Rounds(n, size) - 1, size);
      MulStep(Rounds(n, size), size);
    }
  }

  /**
   With zero-delay handout and everybody there from the start, n >= 1 clients finish at exactly
   ceil(n / size) * hold, however connections are matched to clients.
   */
  lemma ZeroDelayMakespan(holds: seq<Hold>, size: nat, hold: nat, end: nat)
    requires |holds| >= 1 && size >= 1 && hold >= 1
    requires Feasible(holds, size, hold) && ZeroDelay(holds, size, hold) && FinishesAt(holds, hold, end)
    ensures end == Rounds(|holds|, size) * hold
  {
    var i :| 0 <= i < |holds| && holds[i].start + hold == end;
    var q := StartsAreMultiples(holds, size, hold, i);
    MulStep(q, hold);
    MakespanFloor(holds, size, hold, end);
    WorkBefore(holds, size, hold, i);
    NumberOfRounds(|holds|, size, hold, q);
  }

  /** The work of n clients takes more than q rounds and at most q + 1. */
  lemma NumberOfRounds(n: nat, size: nat, hold: nat, q: nat)
    requires size >= 1 && hold >= 1
    requires n * hold <= (q + 1) * hold * size && q * hold * size + hold <= n * hold
    ensures Rounds(n, size) == q + 1
  {
    MulStep(q * size, hold);
    MulStep(q, size);
    RoundsFromBounds(n, size, q);
  }

  /**
   While all connections have been busy and n clients are not all served, at most Rounds(n) - 1 rounds have passed.
   */
  lemma WaitBound(holds: seq<Hold>, size: nat, hold: nat, n: nat, now: nat)
    requires size >= 1 && hold >= 1 && Feasible(holds, size, hold) && ZeroDelay(holds, size, hold)
    requires AllBusy(holds, size, hold, now) && |holds| < n
    ensures now <= (Rounds(n, size) - 1) * hold
  {
    RoundsIsLeast(n, size);
    var q := RoundUp(now, hold);
    forall c, t | 1 <= c <= size && 0 <= t < q * hold ensures Busy(holds, hold, c, t) {
      BusyToTheRound(holds, size, hold, now, c, t);
    }
    Packing(holds, size, hold, q * hold, {});
    FewRounds(q, size, hold, |holds|, Rounds(n, size), n);
  }

  /** No hold of at most n starts after the last round has begun. */
  lemma StartBound(holds: seq<Hold>, size: nat, hold: nat, i: nat, n: nat)
    requires size >= 1 && hold >= 1 && Feasible(holds, size, hold) && ZeroDelay(holds, size, hold)
    requires i < |holds| <= n
    ensures holds[i].start <= (Rounds(n, size) - 1) * hold
  {
    RoundsIsLeast(n, size);
    var q := StartsAreMultiples(holds, size, hold, i);
    WorkBefore(holds, size, hold, i);
    MulStep(|holds|, hold);
    FewRounds(q, size, hold, |holds| - 1, Rounds(n, size), n);
  }

  /**
   Up to a moment in the first round, or before the last one begins, not all of more than `size` clients are served.
   */
  lemma FewStarted(holds: seq<Hold>, size: nat, hold: nat, now: nat, n: nat)
    requires size >= 1 && hold >= 1 && Feasible(holds, size, hold) && ZeroDelay(holds, size, hold) && n > size
    requires forall i :: 0 <= i < |holds| ==> holds[i].start <= now
    requires now == 0 || now < (Rounds(n, size) - 1) * hold
    ensures |holds| < n
  {
    var q, rounds := now / hold + 1, Rounds(n, size);
    EarlyEnds(holds, size, hold, now, q);
    MakespanFloor(holds, size, hold, q * hold);
    RoundsIsLeast(n, size);
    EarlyRound(n, size, hold, now);
    MulAtMost(q, rounds - 1, size);
    FewServed(q, size, hold, |holds|);
  }

  lemma EarlyEnds(holds: seq<Hold>, size: nat, hold: nat, now: nat, q: nat)
    requires size >= 1 && hold >= 1 && Feasible(holds, size, hold) && ZeroDelay(holds, size, hold)
    requires forall i :: 0 <= i < |holds| ==> holds[i].start <= now
    requires q == now / hold + 1
    ensures DoneBy(holds, hold, q * hold)
  {
    forall i | 0 <= i < |holds| ensures holds[i].start + hold <= q * hold {
      var r := StartsAreMultiples(holds, size, hold, i);
      MulAtMost(q, r, hold);
      MulAtMost(r + 1, q, hold);
      MulStep(r + 1, hold);
      MulStep(q, hold);
    }
  }

  lemma EarlyRound(n: nat, size: nat, hold: nat, now: nat)
    requires size >= 1 && hold >= 1 && n > size
    requires now == 0 || now < (Rounds(n, size) - 1) * hold
    ensures now / hold + 1 <= Rounds(n, size) - 1
  {
    var r := now / hold;
    assert r * hold <= now;
    MulAtMost(Rounds(n, size) - 1, r, hold);
  }

  lemma FewServed(q: nat, size: nat, hold: nat, served: nat)
    requires hold >= 1 && served * hold <= q * hold * size
    ensures served <= q * size
  {
    assert q * hold * size == (q * size) * hold;
    MulLess(q * size, served, hold);
  }

  lemma FewRounds(q: nat, size: nat, hold: nat, served: nat, rounds: nat, n: nat)
    requires hold >= 1 && served < n <= rounds * size && q * hold * size <= served * hold
    ensures q < rounds && q * hold <= (rounds - 1) * hold
  {
    assert q * hold * size == (q * size) * hold;
    MulLess(served, q * size, hold);
    MulAtMost(rounds, q, size);
    MulAtMost(q, rounds - 1, hold);
  }

  lemma MulAtMost(a: int, b: int, c: nat)
    ensures a <= b ==> a * c <= b * c
  {
    if a <= b {
      assert (b - a) * c >= 0;
    }
  }

  lemma MulLess(a: int, b: int, c: nat)
    requires c >= 1
    ensures a < b ==> a * c < b * c
  {
    if a < b {
      MulAtMost(a + 1, b, c);
      MulStep(a + 1, c);
    }
  }

  lemma RoundUp(now: nat, hold: nat) returns (q: nat)
    requires hold >= 1
    ensures q == (if now == 0 then 0 else (now - 1) / hold + 1) && q * hold >= now
  {
    q := if now == 0 then 0 else (now - 1) / hold + 1;
    MulStep(q, hold);
  }

  /** Who is busy at the last tick stays busy to the end of the round. */
  lemma BusyToTheRound(holds: seq<Hold>, size: nat, hold: nat, now: nat, c: int, t: nat)
    requires hold >= 1 && Feasible(holds, size, hold) && ZeroDelay(holds, size, hold)
    requires AllBusy(holds, size, hold, now) && 1 <= c <= size && now >= 1 && t < ((now - 1) / hold + 1) * hold
    ensures Busy(holds, hold, c, t)
  {
    if t < now {
      assert Busy(holds, hold, c, t);
    } else {
      assert Busy(holds, hold, c, now - 1);
      var j: nat :| BusyWith(holds, hold, c, now - 1, j);
      var r := StartsAreMultiples(holds, size, hold, j);
      MulStep(r + 1, hold);
      SameQuotient(now - 1, hold, r);
      assert BusyWith(holds, hold, c, t, j);
    }
  }

  lemma SameQuotient(x: nat, d: nat, q: nat)
    requires d >= 1 && q * d <= x < q * d + d
    ensures x / d == q
  {
    var r := x / d;
    assert r * d <= x < r * d + d;
    MulAtMost(r + 1, q, d);
    MulAtMost(q + 1, r, d);
    MulStep(r + 1, d);
    MulStep(q + 1, d);
  }
}
