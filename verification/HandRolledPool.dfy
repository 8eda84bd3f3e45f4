/**
 A connection pool built from a mutex, a condition variable and a container, under four
 overload policies. Each critical section is one step; between steps other threads run,
 so a released connection may be taken by a newcomer before the waiter that was notified of
 it gets the mutex, `notify_one` happens after the mutex is dropped, and waits
 may end spuriously or by their time limit.
 */
module HandRolledPool {
  import opened Common

  datatype Policy = Unbounded | BlockForever | Timeout | Shed

  /**
   `Parked`: inside `wait`, not notified. `Woken`: leaving `wait`, predicate not yet rechecked.
   `Notifying`: has put its connection back and not yet called `notify_one`.
   */
  datatype Phase = Arriving | Parked | Woken | Holding(id: int) | Notifying | Finished | Refused | TimedOut

  datatype State = State(
    idle: seq<int>, nextId: int, created: int, served: int, overflow: int, refused: int, timedOut: int,
    threads: seq<Phase>)

  datatype Event =
    | Enter(t: nat)
    | Wake(t: nat)
    | TimeUp(t: nat)
    | Spurious(t: nat)
    | Release(t: nat)
    | Notify(t: nat, who: Option<nat>)

  predicate NobodyParked(s: State) {
    forall x :: 0 <= x < |s.threads| ==> s.threads[x] != Parked
  }

  predicate Enabled(p: Policy, s: State, e: Event) {
    e.t < |s.threads| &&
    var me := s.threads[e.t];
    match e
    case Enter(t) => me == Arriving
    case Wake(t) => me == Woken
    case TimeUp(t) => p == Timeout && me in {Parked, Woken}
    case Spurious(t) => me == Parked
    case Release(t) => me.Holding?
    case Notify(t, who) =>
      me == Notifying &&
      match who
      case None => NobodyParked(s)
      case Some(x) => x < |s.threads| && s.threads[x] == Parked
  }

  /** Hand out the connection most recently put back. */
  function Take(s: State, t: nat): State
    requires s.idle != [] && t < |s.threads|
  {
    var last := |s.idle| - 1;
    s.(idle := s.idle[..last], served := s.served + 1, threads := s.threads[t := Holding(s.idle[last])])
  }

  function Apply(p: Policy, s: State, e: Event): State
    requires Enabled(p, s, e)
  {
    match e
    case Enter(t) =>
      if s.idle != [] then Take(s, t)
      else (
        match p
        case Unbounded =>
          s.(nextId := s.nextId + 1, created := s.created + 1, overflow := s.overflow + 1, served := s.served + 1,
             threads := s.threads[t := Holding(s.nextId)])
        case Shed => s.(refused := s.refused + 1, threads := s.threads[t := Refused])
        case _ => s.(threads := s.threads[t := Parked])
      )
    case Wake(t) => if s.idle != [] then Take(s, t) else s.(threads := s.threads[t := Parked])
    case TimeUp(t) =>
      if s.idle != [] then Take(s, t)
      else s.(timedOut := s.timedOut + 1, threads := s.threads[t := TimedOut])
    case Spurious(t) => s.(threads := s.threads[t := Woken])
    case Release(t) => s.(idle := s.idle + [s.threads[t].id], threads := s.threads[t := Notifying])
    case Notify(t, who) =>
      var threads := s.threads[t := Finished];
      s.(threads := if who.Some? then threads[who.value := Woken] else threads)
  }

  ghost predicate Run(p: Policy, s: State, es: seq<Event>, s': State)
    decreases |es|
  {
    if es == [] then s == s'
    else Enabled(p, s, es[0]) && Run(p, Apply(p, s, es[0]), es[1..], s')
  }

  function FirstIds(n: nat): (r: seq<int>)
    ensures |r| == n && forall i :: 0 <= i < n ==> r[i] == i + 1
  {
    seq(n, i => i + 1)
  }

  /** The constructor, and `clients` threads about to call `acquire`. */
  function Start(size: nat, clients: nat): State {
    State(FirstIds(size), size + 1, size, 0, 0, 0, 0, seq(clients, _ => Arriving))
  }

  ghost predicate Reachable(p: Policy, size: nat, clients: nat, s: State) {
    exists es :: Run(p, Start(size, clients), es, s)
  }

  // ---------------------------------------------------------------- counting threads

  datatype Kind = WokenKind | NotifyingKind | ServedKind | RefusedKind | TimedOutKind

  predicate Is(k: Kind, ph: Phase) {
    match k
    case WokenKind => ph == Woken
    case NotifyingKind => ph == Notifying
    case ServedKind => ph.Holding? || ph == Notifying || ph == Finished
    case RefusedKind => ph == Refused
    case TimedOutKind => ph == TimedOut
  }

  function Count(k: Kind, threads: seq<Phase>): nat {
    if threads == [] then 0 else (if Is(k, threads[0]) then 1 else 0) + Count(k, threads[1..])
  }

  lemma {:induction false} CountUpdate(k: Kind, threads: seq<Phase>, t: nat, ph: Phase)
    requires t < |threads|
    ensures Count(k, threads[t := ph]) ==
            Count(k, threads) - (if Is(k, threads[t]) then 1 else 0) + (if Is(k, ph) then 1 else 0)
  {
    if t == 0 {
      assert threads[0 := ph][1..] == threads[1..];
    } else {
      assert threads[t := ph][1..] == threads[1..][t - 1 := ph];
      CountUpdate(k, threads[1..], t - 1, ph);
    }
  }

  lemma {:induction false} CountNone(k: Kind, threads: seq<Phase>)
    requires forall t :: 0 <= t < |threads| ==> !Is(k, threads[t])
    ensures Count(k, threads) == 0
  {
    if threads != [] {
      CountNone(k, threads[1..]);
    }
  }

  /** The effect of a step on every count: at most two threads change. */
  lemma CountStep(p: Policy, s: State, e: Event, k: Kind)
    requires Enabled(p, s, e)
    ensures var s' := Apply(p, s, e);
            var change := (if Is(k, s'.threads[e.t]) then 1 else 0) - (if Is(k, s.threads[e.t]) then 1 else 0);
            Count(k, s'.threads) == Count(k, s.threads) + change +
              if e.Notify? && e.who.Some? && k == WokenKind then 1 else 0
  {
    var s' := Apply(p, s, e);
    CountUpdate(k, s.threads, e.t, s'.threads[e.t]);
    if e.Notify? && e.who.Some? {
      CountUpdate(k, s.threads[e.t := Finished], e.who.value, Woken);
    }
  }

  // ---------------------------------------------------------------- the invariant

  /** Connection id is in thread t's hands. */
  predicate Held(s: State, t: nat, id: int) {
    t < |s.threads| && s.threads[t] == Holding(id)
  }

  ghost predicate SomeoneHolds(s: State, id: int) {
    exists t :: Held(s, t, id)
  }

  /** Idle and held connections are duplicate-free, disjoint, and together exactly 1..created. */
  ghost predicate Connections(s: State) {
    && Distinct(s.idle)
    && (forall t, u, id :: Held(s, t, id) && Held(s, u, id) ==> t == u)
    && (forall id :: id in s.idle ==> !SomeoneHolds(s, id))
    && (forall id :: 1 <= id <= s.created <==> id in s.idle || SomeoneHolds(s, id))
  }

  /** While somebody is parked, every idle connection has a wakeup on its way. */
  ghost predicate NoLostWakeup(s: State) {
    NobodyParked(s) || |s.idle| <= Count(WokenKind, s.threads) + Count(NotifyingKind, s.threads)
  }

  ghost predicate Tallies(p: Policy, size: nat, s: State) {
    && s.nextId == s.created + 1 && s.created == size + s.overflow && s.overflow >= 0
    && (p != Unbounded ==> s.overflow == 0)
    && s.served == Count(ServedKind, s.threads)
    && s.refused == Count(RefusedKind, s.threads)
    && s.timedOut == Count(TimedOutKind, s.threads)
  }

  /** Which phases a policy can lead to. */
  ghost predicate Phases(p: Policy, s: State) {
    forall t :: 0 <= t < |s.threads| ==>
      && (s.threads[t] in {Parked, Woken} ==> p in {BlockForever, Timeout})
      && (s.threads[t] == Refused ==> p == Shed)
      && (s.threads[t] == TimedOut ==> p == Timeout)
  }

  ghost predicate Inv(p: Policy, size: nat, clients: nat, s: State) {
    |s.threads| == clients && Connections(s) && NoLostWakeup(s) && Tallies(p, size, s) && Phases(p, s)
  }

  lemma InitInv(p: Policy, size: nat, clients: nat)
    ensures Inv(p, size, clients, Start(size, clients))
  {
    var s := Start(size, clients);
    CountNone(ServedKind, s.threads);
    CountNone(RefusedKind, s.threads);
    CountNone(TimedOutKind, s.threads);
    forall id | 1 <= id <= size ensures id in s.idle {
      assert s.idle[id - 1] == id;
    }
  }

  lemma TakeKeepsConnections(s: State, t: nat)
    requires Connections(s) && s.idle != [] && t < |s.threads| && !s.threads[t].Holding?
    ensures Connections(Take(s, t))
  {
    var s' := Take(s, t);
    var last := |s.idle| - 1;
    var out := s.idle[last];
    assert out in s.idle;
    assert Held(s', t, out);
    forall id ensures SomeoneHolds(s', id) <==> SomeoneHolds(s, id) || id == out {
      if SomeoneHolds(s, id) {
        var u :| Held(s, u, id);
        assert Held(s', u, id);
      }
      if SomeoneHolds(s', id) && id != out {
        var u :| Held(s', u, id);
        assert Held(s, u, id);
      }
    }
    forall id ensures id in s.idle <==> id in s'.idle || id == out {
      if id in s.idle {
        var k :| 0 <= k < |s.idle| && s.idle[k] == id;
        assert k < last ==> s'.idle[k] == id;
      }
    }
    forall u, v, id | Held(s', u, id) && Held(s', v, id) ensures u == v {
      if id == out {
        assert !SomeoneHolds(s, out);
        assert !Held(s, u, out) && !Held(s, v, out);
      } else {
        assert Held(s, u, id) && Held(s, v, id);
      }
    }
  }

  lemma ReleaseKeepsConnections(p: Policy, s: State, t: nat)
    requires Connections(s) && Enabled(p, s, Release(t))
    ensures Connections(Apply(p, s, Release(t)))
  {
    var s' := Apply(p, s, Release(t));
    var back := s.threads[t].id;
    assert Held(s, t, back);
    assert SomeoneHolds(s, back) && back !in s.idle;
    forall id ensures SomeoneHolds(s', id) <==> SomeoneHolds(s, id) && id != back {
      if SomeoneHolds(s, id) && id != back {
        var u :| Held(s, u, id);
        assert Held(s', u, id);
      }
      if SomeoneHolds(s', id) {
        var u :| Held(s', u, id);
        assert Held(s, u, id);
      }
    }
    forall u, v, id | Held(s', u, id) && Held(s', v, id) ensures u == v {
      assert Held(s, u, id) && Held(s, v, id);
    }
  }

  lemma CreateKeepsConnections(p: Policy, s: State, t: nat)
    requires Connections(s) && p == Unbounded && Enabled(p, s, Enter(t)) && s.idle == []
    requires s.nextId == s.created + 1 >= 1
    ensures Connections(Apply(p, s, Enter(t)))
  {
    var s' := Apply(p, s, Enter(t));
    assert Held(s', t, s.nextId) && SomeoneHolds(s', s.nextId);
    forall id ensures SomeoneHolds(s', id) <==> SomeoneHolds(s, id) || id == s.nextId {
      if SomeoneHolds(s, id) {
        var u :| Held(s, u, id);
        assert Held(s', u, id);
      }
      if SomeoneHolds(s', id) && id != s.nextId {
        var u :| Held(s', u, id);
        assert Held(s, u, id);
      }
    }
    forall u, v, id | Held(s', u, id) && Held(s', v, id) ensures u == v {
      if id == s.nextId {
        assert !SomeoneHolds(s, id);
        assert !Held(s, u, id) && !Held(s, v, id);
      } else {
        assert Held(s, u, id) && Held(s, v, id);
      }
    }
    forall id ensures 1 <= id <= s'.created <==> id in s'.idle || SomeoneHolds(s', id) {
      assert 1 <= id <= s.created <==> id in s.idle || SomeoneHolds(s, id);
    }
  }

  /** Steps that move no connection. */
  lemma SameConnections(s: State, s': State)
    requires Connections(s) && s'.idle == s.idle && s'.created == s.created && |s'.threads| == |s.threads|
    requires forall t :: 0 <= t < |s.threads| && s'.threads[t] != s.threads[t] ==>
               !s.threads[t].Holding? && !s'.threads[t].Holding?
    ensures Connections(s')
  {
    forall t, id ensures Held(s', t, id) <==> Held(s, t, id) {
    }
    forall id ensures SomeoneHolds(s', id) <==> SomeoneHolds(s, id) {
      if t :| Held(s, t, id) {
        assert Held(s', t, id);
      }
      if t :| Held(s', t, id) {
        assert Held(s, t, id);
      }
    }
  }

  lemma ConnectionsKept(p: Policy, size: nat, s: State, e: Event)
    requires Connections(s) && Tallies(p, size, s) && Enabled(p, s, e)
    ensures Connections(Apply(p, s, e))
  {
    var s' := Apply(p, s, e);
    if (e.Enter? || e.Wake? || e.TimeUp?) && s.idle != [] {
      TakeKeepsConnections(s, e.t);
    } else if e.Release? {
      ReleaseKeepsConnections(p, s, e.t);
    } else if e.Enter? && p == Unbounded {
      CreateKeepsConnections(p, s, e.t);
    } else {
      SameConnections(s, s');
    }
  }

  lemma WakeupsKept(p: Policy, s: State, e: Event)
    requires NoLostWakeup(s) && Enabled(p, s, e)
    ensures NoLostWakeup(Apply(p, s, e))
  {
    var s' := Apply(p, s, e);
    CountStep(p, s, e, WokenKind);
    CountStep(p, s, e, NotifyingKind);
    if !NobodyParked(s') && s'.idle != [] {
      // nobody parks while a connection is idle, so whoever is parked now was parked before
      var x :| 0 <= x < |s'.threads| && s'.threads[x] == Parked;
      assert s.threads[x] == Parked;
    }
  }

  lemma TalliesKept(p: Policy, size: nat, s: State, e: Event)
    requires Tallies(p, size, s) && Phases(p, s) && Enabled(p, s, e)
    ensures Tallies(p, size, Apply(p, s, e))
  {
    CountStep(p, s, e, ServedKind);
    CountStep(p, s, e, RefusedKind);
    CountStep(p, s, e, TimedOutKind);
  }

  lemma PhasesKept(p: Policy, s: State, e: Event)
    requires Phases(p, s) && Enabled(p, s, e)
    ensures Phases(p, Apply(p, s, e))
  {
  }

  lemma StepInv(p: Policy, size: nat, clients: nat, s: State, e: Event)
    requires Inv(p, size, clients, s) && Enabled(p, s, e)
    ensures Inv(p, size, clients, Apply(p, s, e))
  {
    ConnectionsKept(p, size, s, e);
    WakeupsKept(p, s, e);
    TalliesKept(p, size, s, e);
    PhasesKept(p, s, e);
  }

  lemma {:induction false} RunInv(p: Policy, size: nat, clients: nat, s: State, es: seq<Event>, s': State)
    requires Inv(p, size, clients, s) && Run(p, s, es, s')
    ensures Inv(p, size, clients, s')
    decreases |es|
  {
    if es != [] {
      StepInv(p, size, clients, s, es[0]);
      RunInv(p, size, clients, Apply(p, s, es[0]), es[1..], s');
    }
  }

  /** What holds at every moment of every run, under all four policies. */
  lemma PoolIsSound(p: Policy, size: nat, clients: nat, s: State)
    requires Reachable(p, size, clients, s)
    ensures Connections(s) && NoLostWakeup(s)
    ensures s.created == size + s.overflow >= size && (p != Unbounded ==> s.created == size)
    ensures s.served == Count(ServedKind, s.threads)
    ensures p != Shed ==> s.refused == 0
    ensures p != Timeout ==> s.timedOut == 0
  {
    var es :| Run(p, Start(size, clients), es, s);
    InitInv(p, size, clients);
    RunInv(p, size, clients, Start(size, clients), es, s);
    if p != Shed {
      CountNone(RefusedKind, s.threads);
    }
    if p != Timeout {
      CountNone(TimedOutKind, s.threads);
    }
  }

  // ---------------------------------------------------------------- last in, first out

  /** The connections in the order they were put in, when this step follows these. */
  function PutBy(put: seq<int>, s: State, e: Event): seq<int> {
    if e.Release? && e.t < |s.threads| && s.threads[e.t].Holding? then put + [s.threads[e.t].id] else put
  }

  /** The same after a run: each release puts its connection in. */
  ghost function PutIn(p: Policy, put: seq<int>, s: State, es: seq<Event>): seq<int>
    decreases |es|
  {
    if es == [] || !Enabled(p, s, es[0]) then put
    else PutIn(p, PutBy(put, s, es[0]), Apply(p, s, es[0]), es[1..])
  }

  /** The connection is idle, and of the idle ones it is the one put in last; `put` lists them in the order put in. */
  ghost predicate MostRecent(put: seq<int>, idle: seq<int>, id: int) {
    id in idle && exists k :: 0 <= k < |put| && LastPutAt(put, idle, id, k)
  }

  ghost predicate LastPutAt(put: seq<int>, idle: seq<int>, id: int, k: nat)
    requires k < |put|
  {
    put[k] == id && forall m :: k < m < |put| ==> put[m] !in idle
  }

  /** at[i] is when the i-th idle connection was put in: since then none of those up to it was. */
  ghost predicate PutInOrder(put: seq<int>, idle: seq<int>, at: seq<nat>) {
    |at| == |idle| && forall i :: 0 <= i < |idle| ==> InPlace(put, idle, i, at[i])
  }

  ghost predicate InPlace(put: seq<int>, idle: seq<int>, i: int, k: nat)
    requires 0 <= i < |idle|
  {
    k < |put| && put[k] == idle[i] && forall m, j :: k < m < |put| && 0 <= j <= i ==> put[m] != idle[j]
  }

  lemma {:induction false} PutMore(put: seq<int>, idle: seq<int>, at: seq<nat>, id: int)
    requires PutInOrder(put, idle, at) && id !in idle
    ensures PutInOrder(put + [id], idle + [id], at + [|put|])
  {
    var more, longer := put + [id], idle + [id];
    forall i | 0 <= i < |idle| ensures InPlace(more, longer, i, at[i]) {
      assert InPlace(put, idle, i, at[i]);
    }
  }

  lemma {:induction false} TakeLast(put: seq<int>, idle: seq<int>, at: seq<nat>)
    requires PutInOrder(put, idle, at) && idle != []
    ensures MostRecent(put, idle, idle[|idle| - 1])
    ensures PutInOrder(put, idle[..|idle| - 1], at[..|idle| - 1])
  {
    var last, fewer := |idle| - 1, idle[..|idle| - 1];
    assert InPlace(put, idle, last, at[last]);
    assert LastPutAt(put, idle, idle[last], at[last]);
    forall i | 0 <= i < last ensures InPlace(put, fewer, i, at[i]) {
      assert InPlace(put, idle, i, at[i]);
    }
  }

  lemma InitialOrder(size: nat) returns (at: seq<nat>)
    ensures PutInOrder(FirstIds(size), FirstIds(size), at)
  {
    at := seq(size, i => i);
  }

  /** What one step does to the order. */
  lemma OrderStep(p: Policy, s: State, e: Event, put: seq<int>, at: seq<nat>) returns (at': seq<nat>)
    requires Enabled(p, s, e) && Connections(s) && PutInOrder(put, s.idle, at)
    ensures PutInOrder(PutBy(put, s, e), Apply(p, s, e).idle, at')
  {
    at' := at;
    if e.Release? {
      assert Held(s, e.t, s.threads[e.t].id);
      PutMore(put, s.idle, at, s.threads[e.t].id);
      at' := at + [|put|];
    } else if Takes(e) && s.idle != [] {
      TakeLast(put, s.idle, at);
      at' := at[..|s.idle| - 1];
    }
  }

  lemma {:induction false} OrderRun(p: Policy, size: nat, clients: nat, s: State, es: seq<Event>, s': State,
                                    put: seq<int>, at: seq<nat>) returns (at': seq<nat>)
    requires Inv(p, size, clients, s) && Run(p, s, es, s') && PutInOrder(put, s.idle, at)
    ensures PutInOrder(PutIn(p, put, s, es), s'.idle, at')
    decreases |es|
  {
    if es == [] {
      at' := at;
    } else {
      StepInv(p, size, clients, s, es[0]);
      var at1 := OrderStep(p, s, es[0], put, at);
      at' := OrderRun(p, size, clients, Apply(p, s, es[0]), es[1..], s', PutBy(put, s, es[0]), at1);
    }
  }

  /** Everything put in since the start, the initial connections first. */
  ghost function AllPutIn(p: Policy, size: nat, clients: nat, es: seq<Event>): seq<int> {
    PutIn(p, FirstIds(size), Start(size, clients), es)
  }

  lemma LastIsMostRecent(p: Policy, size: nat, clients: nat, es: seq<Event>, s: State)
    requires Run(p, Start(size, clients), es, s) && s.idle != []
    ensures MostRecent(AllPutIn(p, size, clients, es), s.idle, s.idle[|s.idle| - 1])
  {
    InitInv(p, size, clients);
    var at0 := InitialOrder(size);
    var put := AllPutIn(p, size, clients, es);
    var at := OrderRun(p, size, clients, Start(size, clients), es, s, FirstIds(size), at0);
    TakeLast(put, s.idle, at);
  }

  predicate Takes(e: Event) { e.Enter? || e.Wake? || e.TimeUp? }

  lemma TakesTheLast(p: Policy, s: State, e: Event)
    requires Enabled(p, s, e) && Takes(e) && s.idle != []
    ensures Apply(p, s, e).threads[e.t] == Holding(s.idle[|s.idle| - 1])
  {
  }

  /**
   In every run of every policy, whoever takes from a pool that is not empty gets, of the idle connections, the one
   released last; those never released count as put in before all others, in the order of their ids.
   */
  lemma HandsOutMostRecent(p: Policy, size: nat, clients: nat, es: seq<Event>, s: State, e: Event)
    requires Run(p, Start(size, clients), es, s) && Enabled(p, s, e)
    requires Takes(e) && s.idle != []
    ensures Apply(p, s, e).threads[e.t].Holding?
    ensures MostRecent(AllPutIn(p, size, clients, es), s.idle, Apply(p, s, e).threads[e.t].id)
  {
    TakesTheLast(p, s, e);
    LastIsMostRecent(p, size, clients, es, s);
  }

  /** So a connection that comes back is the next to go out, if nobody returns or takes another in between. */
  lemma {:induction false} ReturnedIsNext(p: Policy, s: State, t: nat, es: seq<Event>, s': State, e: Event)
    requires Enabled(p, s, Release(t)) && Run(p, Apply(p, s, Release(t)), es, s')
    requires forall i :: 0 <= i < |es| ==> es[i].Notify? || es[i].Spurious?
    requires Enabled(p, s', e) && Takes(e)
    ensures Apply(p, s', e).threads[e.t] == s.threads[t]
  {
    IdleUntouched(p, Apply(p, s, Release(t)), es, s');
  }

  lemma {:induction false} IdleUntouched(p: Policy, s: State, es: seq<Event>, s': State)
    requires Run(p, s, es, s') && forall i :: 0 <= i < |es| ==> es[i].Notify? || es[i].Spurious?
    ensures s'.idle == s.idle
    decreases |es|
  {
    if es != [] {
      assert es[0].Notify? || es[0].Spurious?;
      IdleUntouched(p, Apply(p, s, es[0]), es[1..], s');
    }
  }

  // ---------------------------------------------------------------- every run ends

  predicate Over(ph: Phase) { ph in {Finished, Refused, TimedOut} }

  function Weight(ph: Phase): int {
    match ph
    case Arriving => 6
    case Woken => 5
    case Parked => 4
    case Holding(_) => 3
    case Notifying => 2
    case _ => 0
  }

  function Weights(threads: seq<Phase>): seq<int> {
    seq(|threads|, i requires 0 <= i < |threads| => Weight(threads[i]))
  }

  lemma WeightUpdate(threads: seq<Phase>, t: nat, ph: Phase)
    requires t < |threads|
    ensures Sum(Weights(threads[t := ph])) == Sum(Weights(threads)) - Weight(threads[t]) + Weight(ph)
  {
    assert Weights(threads[t := ph]) == Weights(threads)[t := Weight(ph)];
    SumUpdate(Weights(threads), t, Weight(ph));
  }

  /** Every step brings the end nearer, except a spurious wakeup, which sets it back by one. */
  lemma StepDecreases(p: Policy, s: State, e: Event)
    requires Enabled(p, s, e)
    ensures Sum(Weights(Apply(p, s, e).threads)) <= Sum(Weights(s.threads)) + if e.Spurious? then 1 else -1
  {
    var s' := Apply(p, s, e);
    WeightUpdate(s.threads, e.t, s'.threads[e.t]);
    if e.Notify? && e.who.Some? {
      WeightUpdate(s.threads[e.t := Finished], e.who.value, Woken);
    }
  }

  function SpuriousIn(es: seq<Event>): nat {
    if es == [] then 0 else (if es[0].Spurious? then 1 else 0) + SpuriousIn(es[1..])
  }

  lemma {:induction false} RunBounded(p: Policy, s: State, es: seq<Event>, s': State)
    requires Run(p, s, es, s')
    ensures |es| <= Sum(Weights(s.threads)) + 2 * SpuriousIn(es)
    decreases |es|
  {
    if es == [] {
      SumNonNegative(Weights(s.threads));
    } else {
      StepDecreases(p, s, es[0]);
      RunBounded(p, Apply(p, s, es[0]), es[1..], s');
    }
  }

  /** A run of `clients` threads has at most six steps per thread and two per spurious wakeup. */
  lemma RunsTerminate(p: Policy, size: nat, clients: nat, es: seq<Event>, s: State)
    requires Run(p, Start(size, clients), es, s)
    ensures |es| <= 6 * clients + 2 * SpuriousIn(es)
  {
    RunBounded(p, Start(size, clients), es, s);
    SumBounds(Weights(Start(size, clients).threads), 6, 6);
  }

  lemma {:induction false} CountWitness(k: Kind, threads: seq<Phase>) returns (t: nat)
    requires Count(k, threads) > 0
    ensures t < |threads| && Is(k, threads[t])
  {
    if Is(k, threads[0]) {
      t := 0;
    } else {
      var u := CountWitness(k, threads[1..]);
      t := u + 1;
    }
  }

  /**
   A pool of at least one connection never hangs, nor does one that makes nobody wait: until every thread is over, some
   thread can take a step that is neither a time limit nor a spurious wakeup.
   */
  lemma NeverHangs(p: Policy, size: nat, clients: nat, s: State)
    requires size >= 1 || p in {Unbounded, Shed}
    requires Reachable(p, size, clients, s)
    requires exists t :: 0 <= t < |s.threads| && !Over(s.threads[t])
    ensures exists e :: Enabled(p, s, e) && !e.TimeUp? && !e.Spurious?
  {
    PoolIsSound(p, size, clients, s);
    var t :| 0 <= t < |s.threads| && !Over(s.threads[t]);
    if p in {Unbounded, Shed} {
      NobodyWaits(p, size, clients, s, t);
    }
    if s.threads[t] != Parked {
      ActsUnlessParked(p, s, t);
    } else {
      assert 1 in s.idle || SomeoneHolds(s, 1);
      if SomeoneHolds(s, 1) {
        var u: nat :| Held(s, u, 1);
        assert Enabled(p, s, Release(u));
      } else if Count(WokenKind, s.threads) > 0 {
        var u := CountWitness(WokenKind, s.threads);
        assert Enabled(p, s, Wake(u));
      } else {
        var u := CountWitness(NotifyingKind, s.threads);
        assert Enabled(p, s, Notify(u, Some(t)));
      }
    }
  }

  /** A thread that is neither over nor parked has a step of its own. */
  lemma ActsUnlessParked(p: Policy, s: State, t: nat)
    requires t < |s.threads| && !Over(s.threads[t]) && s.threads[t] != Parked
    ensures exists e :: Enabled(p, s, e) && !e.TimeUp? && !e.Spurious?
  {
    match s.threads[t]
    case Arriving => assert Enabled(p, s, Enter(t));
    case Woken => assert Enabled(p, s, Wake(t));
    case Holding(_) => assert Enabled(p, s, Release(t));
    case Notifying =>
      if NobodyParked(s) {
        assert Enabled(p, s, Notify(t, None));
      } else {
        var x :| 0 <= x < |s.threads| && s.threads[x] == Parked;
        assert Enabled(p, s, Notify(t, Some(x)));
      }
  }

  lemma {:induction false} CountAll(k: Kind, threads: seq<Phase>)
    requires forall t :: 0 <= t < |threads| ==> Is(k, threads[t])
    ensures Count(k, threads) == |threads|
  {
    if threads != [] {
      CountAll(k, threads[1..]);
    }
  }

  /** Where a run can end: there is nothing left to do, or only a spurious wakeup. */
  ghost predicate AtEnd(p: Policy, s: State) {
    forall e :: Enabled(p, s, e) ==> e.Spurious?
  }

  lemma {:induction false} CountOver(threads: seq<Phase>)
    requires forall t :: 0 <= t < |threads| ==> Over(threads[t])
    ensures Count(ServedKind, threads) + Count(RefusedKind, threads) + Count(TimedOutKind, threads) == |threads|
  {
    if threads != [] {
      CountOver(threads[1..]);
    }
  }

  /**
   Under every policy, unless it blocks for ever on an empty pool, a run that can go no further has dealt with every
   client: each is served, refused or timed out, the last two under their own policy only.
   */
  lemma EveryClientAnswered(p: Policy, size: nat, clients: nat, s: State)
    requires (p == BlockForever ==> size >= 1) && Reachable(p, size, clients, s) && AtEnd(p, s)
    ensures |s.threads| == clients && forall t :: 0 <= t < clients ==> Over(s.threads[t])
    ensures match p
            case Unbounded => s.served == clients && s.refused == 0 && s.timedOut == 0
            case BlockForever => s.served == clients && s.refused == 0 && s.timedOut == 0
            case Timeout => s.served + s.timedOut == clients && s.refused == 0
            case Shed => s.served + s.refused == clients && s.timedOut == 0
  {
    var es :| Run(p, Start(size, clients), es, s);
    InitInv(p, size, clients);
    RunInv(p, size, clients, Start(size, clients), es, s);
    PoolIsSound(p, size, clients, s);
    forall t | 0 <= t < clients ensures Over(s.threads[t]) {
      EndIsOver(p, size, clients, s, t);
    }
    CountOver(s.threads);
  }

  lemma EndIsOver(p: Policy, size: nat, clients: nat, s: State, t: nat)
    requires (p == BlockForever ==> size >= 1) && Reachable(p, size, clients, s) && AtEnd(p, s) && t < |s.threads|
    ensures Over(s.threads[t])
  {
    if !Over(s.threads[t]) {
      if p != Timeout {
        NeverHangs(p, size, clients, s);
      } else {
        GoesOnInTime(s, t);
      }
    }
  }

  lemma GoesOnInTime(s: State, t: nat)
    requires t < |s.threads| && !Over(s.threads[t])
    ensures exists e :: Enabled(Timeout, s, e) && !e.Spurious?
  {
    if s.threads[t] == Parked {
      assert Enabled(Timeout, s, TimeUp(t));
    } else {
      ActsUnlessParked(Timeout, s, t);
    }
  }

  /**
   Where a run of the blocking pool can end: with at least one connection, every client has been
   served; nothing was created beyond the pool.
   */
  lemma BlockForeverServesAll(size: nat, clients: nat, s: State)
    requires size >= 1 && Reachable(BlockForever, size, clients, s) && AtEnd(BlockForever, s)
    ensures forall t :: 0 <= t < |s.threads| ==> s.threads[t] == Finished
    ensures s.served == clients && s.refused == 0 && s.timedOut == 0 && s.created == size
  {
    EveryClientAnswered(BlockForever, size, clients, s);
    var es :| Run(BlockForever, Start(size, clients), es, s);
    InitInv(BlockForever, size, clients);
    RunInv(BlockForever, size, clients, Start(size, clients), es, s);
  }

  /** With no connection at all, clients t.. of a pool that waits all park, and nothing can wake them for good. */
  lemma {:induction false} AllPark(p: Policy, s: State, t: nat) returns (es: seq<Event>, s': State)
    requires p in {BlockForever, Timeout} && s.idle == [] && t <= |s.threads|
    requires forall i :: 0 <= i < |s.threads| ==> s.threads[i] == if i < t then Parked else Arriving
    ensures Run(p, s, es, s') && |s'.threads| == |s.threads|
    ensures forall i :: 0 <= i < |s.threads| ==> s'.threads[i] == Parked
    decreases |s.threads| - t
  {
    if t == |s.threads| {
      es, s' := [], s;
    } else {
      var next := Apply(p, s, Enter(t));
      var more;
      more, s' := AllPark(p, next, t + 1);
      es := [Enter(t)] + more;
      assert es[1..] == more;
    }
  }

  lemma EmptyPoolHangs(p: Policy, clients: nat) returns (s: State)
    requires p in {BlockForever, Timeout}
    ensures Reachable(p, 0, clients, s) && |s.threads| == clients
    ensures forall t :: 0 <= t < clients ==> s.threads[t] == Parked
    ensures forall e :: Enabled(p, s, e) ==> e.TimeUp? || e.Spurious?
  {
    var es;
    es, s := AllPark(p, Start(0, clients), 0);
  }

  /** Some run gets to where clients are left and only a time limit or a spurious wakeup can still happen. */
  ghost predicate CanHang(p: Policy, size: nat, clients: nat) {
    exists s ::
      && Reachable(p, size, clients, s) && (exists t :: 0 <= t < |s.threads| && !Over(s.threads[t]))
      && forall e :: Enabled(p, s, e) ==> e.TimeUp? || e.Spurious?
  }

  /** A pool with clients can hang exactly when it has no connection and its policy is to wait for one. */
  lemma HangsExactly(p: Policy, size: nat, clients: nat)
    requires clients >= 1
    ensures CanHang(p, size, clients) <==> size == 0 && p in {BlockForever, Timeout}
  {
    if CanHang(p, size, clients) {
      var s :| Reachable(p, size, clients, s) && (exists t :: 0 <= t < |s.threads| && !Over(s.threads[t]))
        && forall e :: Enabled(p, s, e) ==> e.TimeUp? || e.Spurious?;
      if size >= 1 || p in {Unbounded, Shed} {
        NeverHangs(p, size, clients, s);
      }
    }
    if size == 0 && p in {BlockForever, Timeout} {
      var s := EmptyPoolHangs(p, clients);
      assert !Over(s.threads[0]);
    }
  }

  /** Unbounded and shedding pools make nobody wait. */
  lemma NobodyWaits(p: Policy, size: nat, clients: nat, s: State, t: nat)
    requires p in {Unbounded, Shed} && Reachable(p, size, clients, s) && t < |s.threads|
    ensures s.threads[t] !in {Parked, Woken}
  {
    var es :| Run(p, Start(size, clients), es, s);
    InitInv(p, size, clients);
    RunInv(p, size, clients, Start(size, clients), es, s);
  }

  // ---------------------------------------------------------------- the class

  /**
   The pool object, with the threads that use it: each method is what one thread does
   between taking the mutex and giving it up. `put` lists the connections in the order they were put in.
   */
  class Pool {
    const policy: Policy
    var idle: seq<int>
    var nextId: int
    var created: int
    var served: int
    var overflow: int
    var refused: int
    var timedOut: int
    var threads: seq<Phase>
    ghost var put: seq<int>

    ghost function View(): State
      reads this
    {
      State(idle, nextId, created, served, overflow, refused, timedOut, threads)
    }

    constructor (policy: Policy, size: nat, clients: nat)
      ensures this.policy == policy && View() == Start(size, clients) && put == FirstIds(size)
    {
      this.policy := policy;
      idle, nextId, created := [], 1, 0;
      served, overflow, refused, timedOut := 0, 0, 0, 0;
      threads := seq(clients, _ => Arriving);
      put := [];
      new;
      for i := 0 to size
        invariant idle == put == FirstIds(i) && nextId == i + 1 && created == i
        invariant served == overflow == refused == timedOut == 0 && threads == seq(clients, _ => Arriving)
      {
        idle := idle + [nextId];
        put := put + [nextId];
        nextId := nextId + 1;
        created := created + 1;
      }
    }

    /** The idle connections lie in the order they were put in. */
    ghost predicate InOrder()
      reads this
    {
      exists at :: PutInOrder(put, idle, at)
    }

    /** Hand out the connection put in last. */
    method HandOut(t: nat)
      requires idle != [] && t < |threads|
      modifies this
      ensures View() == Take(old(View()), t) && put == old(put) && threads[t].Holding?
      ensures old(InOrder()) ==> InOrder() && MostRecent(put, old(idle), threads[t].id)
    {
      if at :| PutInOrder(put, idle, at) {
        TakeLast(put, idle, at);
      }
      var out := idle[|idle| - 1];
      idle := idle[..|idle| - 1];
      served := served + 1;
      threads := threads[t := Holding(out)];
    }

    /** `acquire` up to its return or its wait. */
    method EnterAcquire(t: nat)
      requires Enabled(policy, View(), Enter(t))
      modifies this
      ensures View() == Apply(policy, old(View()), Enter(t)) && put == old(put)
    {
      if idle == [] {
        match policy
        case Unbounded =>
          threads := threads[t := Holding(nextId)];
          nextId := nextId + 1;
          created := created + 1;
          overflow := overflow + 1;
          served := served + 1;
          return;
        case Shed =>
          refused := refused + 1;
          threads := threads[t := Refused];
          return;
        case BlockForever =>
          threads := threads[t := Parked];
          return;
        case Timeout =>
          threads := threads[t := Parked];
          return;
      }
      HandOut(t);
    }

    /** A woken waiter rechecks its predicate and takes a connection or waits again. */
    method Recheck(t: nat)
      requires Enabled(policy, View(), Wake(t))
      modifies this
      ensures View() == Apply(policy, old(View()), Wake(t)) && put == old(put)
    {
      if idle != [] {
        HandOut(t);
      } else {
        threads := threads[t := Parked];
      }
    }

    /** The wait's time limit: one last look at the predicate. */
    method GiveUpWaiting(t: nat)
      requires Enabled(policy, View(), TimeUp(t))
      modifies this
      ensures View() == Apply(policy, old(View()), TimeUp(t)) && put == old(put)
    {
      if idle != [] {
        HandOut(t);
      } else {
        timedOut := timedOut + 1;
        threads := threads[t := TimedOut];
      }
    }

    /** `release` inside its lock scope; the notification comes later. */
    method PutBack(t: nat)
      requires Enabled(policy, View(), Release(t))
      modifies this
      ensures View() == Apply(policy, old(View()), Release(t)) && put == PutBy(old(put), old(View()), Release(t))
      ensures old(InOrder()) && old(threads[t].id !in idle) ==> InOrder()
    {
      if at :| PutInOrder(put, idle, at) && threads[t].id !in idle {
        PutMore(put, idle, at, threads[t].id);
      }
      put := put + [threads[t].id];
      idle := idle + [threads[t].id];
      threads := threads[t := Notifying];
    }

    /** `notify_one`, after the lock scope; the system picks the waiter. */
    method NotifyOne(t: nat, who: Option<nat>)
      requires Enabled(policy, View(), Notify(t, who))
      modifies this
      ensures View() == Apply(policy, old(View()), Notify(t, who)) && put == old(put)
    {
      threads := threads[t := Finished];
      if who.Some? {
        threads := threads[who.value := Woken];
      }
    }

    method Do(e: Event)
      requires Enabled(policy, View(), e)
      modifies this
      ensures View() == Apply(policy, old(View()), e)
      ensures put == PutBy(old(put), old(View()), e)
    {
      match e
      case Enter(t) => EnterAcquire(t);
      case Wake(t) => Recheck(t);
      case TimeUp(t) => GiveUpWaiting(t);
      case Spurious(t) => threads := threads[t := Woken];
      case Release(t) => PutBack(t);
      case Notify(t, who) => NotifyOne(t, who);
    }

    /** Any schedule of steps, executed on the object, is a run of the step system. */
    method Execute(es: seq<Event>, ghost final: State)
      requires Run(policy, View(), es, final)
      modifies this
      ensures View() == final && put == PutIn(policy, old(put), old(View()), es)
    {
      for i := 0 to |es|
        invariant Run(policy, View(), es[i..], final)
        invariant PutIn(policy, put, View(), es[i..]) == PutIn(policy, old(put), old(View()), es)
      {
        assert es[i..][0] == es[i] && es[i..][1..] == es[i + 1..];
        Do(es[i]);
      }
    }
  }
}
