/**
 Threads that each add 1 to a shared counter `k` times, as separate load and store steps
 in any interleaving, with and without a lock around the pair; and threads that fill a
 one-key cache by check-then-act, with and without a lock.
 */
module Race {
  import opened Common

  // ---------------------------------------------------------------- increments

  /** `Loaded(v)`: the thread has read v and not yet stored v + 1. */
  datatype Phase = Ready | Locked | Loaded(v: nat) | Stored

  datatype Thread = Thread(done: nat, phase: Phase)

  datatype State = State(counter: nat, holder: Option<nat>, threads: seq<Thread>)

  datatype Event = Acquire(t: nat) | Load(t: nat) | Store(t: nat) | Release(t: nat)

  predicate Enabled(useLock: bool, k: nat, s: State, e: Event) {
    e.t < |s.threads| &&
    var me := s.threads[e.t];
    match e
    case Acquire(t) => useLock && me.phase == Ready && me.done < k && s.holder == None
    case Load(t) => me.done < k && me.phase == if useLock then Locked else Ready
    case Store(t) => me.phase.Loaded?
    case Release(t) => me.phase == Stored
  }

  function Apply(useLock: bool, k: nat, s: State, e: Event): State
    requires Enabled(useLock, k, s, e)
  {
    var me := s.threads[e.t];
    match e
    case Acquire(t) => s.(holder := Some(t), threads := s.threads[t := me.(phase := Locked)])
    case Load(t) => s.(threads := s.threads[t := me.(phase := Loaded(s.counter))])
    case Store(t) =>
      s.(counter := me.phase.v + 1,
         threads := s.threads[t := Thread(me.done + 1, if useLock then Stored else Ready)])
    case Release(t) => s.(holder := None, threads := s.threads[t := me.(phase := Ready)])
  }

  ghost predicate Run(useLock: bool, k: nat, s: State, es: seq<Event>, s': State)
    decreases |es|
  {
    if es == [] then s == s'
    else Enabled(useLock, k, s, es[0]) && Run(useLock, k, Apply(useLock, k, s, es[0]), es[1..], s')
  }

  function Start(n: nat): State {
    State(0, None, seq(n, _ => Thread(0, Ready)))
  }

  predicate AllDone(k: nat, s: State) {
    forall t :: 0 <= t < |s.threads| ==> s.threads[t] == Thread(k, Ready)
  }

  /** v is what the joined program may return. */
  ghost predicate CanReturn(useLock: bool, n: nat, k: nat, v: nat) {
    exists es, s :: Run(useLock, k, Start(n), es, s) && AllDone(k, s) && s.counter == v
  }

  function Dones(threads: seq<Thread>): seq<int> {
    seq(|threads|, i requires 0 <= i < |threads| => threads[i].done)
  }

  lemma DonesUpdate(threads: seq<Thread>, t: nat, me: Thread)
    requires t < |threads|
    ensures Sum(Dones(threads[t := me])) == Sum(Dones(threads)) - threads[t].done + me.done
  {
    assert Dones(threads[t := me]) == Dones(threads)[t := me.done];
    SumUpdate(Dones(threads), t, me.done);
  }

  lemma DonesOfFinished(k: nat, s: State)
    requires AllDone(k, s)
    ensures Sum(Dones(s.threads)) == |s.threads| * k
  {
    SumBounds(Dones(s.threads), k, k);
  }

  /**
   Nothing read or stored exceeds the number of completed increments; a thread past its first
   increment has read at least 1; and the counter is at least 2 once nobody's latest
   store was a first one.
   */
  ghost predicate UnlockedInv(k: nat, s: State) {
    && s.counter <= Sum(Dones(s.threads))
    && (forall t :: 0 <= t < |s.threads| ==>
         s.threads[t].done <= k && (s.threads[t].phase.Loaded? ==> s.threads[t].done < k))
    && (forall t :: 0 <= t < |s.threads| && s.threads[t].phase.Loaded? ==>
         s.threads[t].phase.v <= Sum(Dones(s.threads)) && (s.threads[t].done >= 1 ==> s.threads[t].phase.v >= 1))
    && (forall t :: 0 <= t < |s.threads| && s.threads[t].done >= 1 ==> s.counter >= 1)
    && (s.counter >= 2 || exists t :: 0 <= t < |s.threads| && s.threads[t].done <= 1)
  }

  lemma UnlockedStep(k: nat, s: State, e: Event)
    requires UnlockedInv(k, s) && Enabled(false, k, s, e)
    ensures UnlockedInv(k, Apply(false, k, s, e))
  {
    var s' := Apply(false, k, s, e);
    DonesUpdate(s.threads, e.t, s'.threads[e.t]);
    if e.Store? {
      assert s'.threads[e.t].done <= 1 || s'.counter >= 2;
    } else if s'.counter < 2 {
      var t :| 0 <= t < |s.threads| && s.threads[t].done <= 1;
      assert s'.threads[t].done <= 1;
    }
  }

  lemma {:induction false} UnlockedRun(k: nat, s: State, es: seq<Event>, s': State)
    requires UnlockedInv(k, s) && Run(false, k, s, es, s')
    ensures UnlockedInv(k, s') && |s'.threads| == |s.threads|
    decreases |es|
  {
    if es != [] {
      UnlockedStep(k, s, es[0]);
      UnlockedRun(k, Apply(false, k, s, es[0]), es[1..], s');
    }
  }

  lemma {:induction false} RunAppend(useLock: bool, k: nat, s: State, es: seq<Event>, mid: State,
                                     fs: seq<Event>, s': State)
    requires Run(useLock, k, s, es, mid) && Run(useLock, k, mid, fs, s')
    ensures Run(useLock, k, s, es + fs, s')
    decreases |es|
  {
    if es == [] {
      assert es + fs == fs;
    } else {
      assert (es + fs)[1..] == es[1..] + fs;
      RunAppend(useLock, k, Apply(useLock, k, s, es[0]), es[1..], mid, fs, s');
    }
  }

  lemma RunSnoc(useLock: bool, k: nat, s: State, es: seq<Event>, mid: State, e: Event)
    requires Run(useLock, k, s, es, mid) && Enabled(useLock, k, mid, e)
    ensures Run(useLock, k, s, es + [e], Apply(useLock, k, mid, e))
  {
    assert [e][1..] == [];
    RunAppend(useLock, k, s, es, mid, [e], Apply(useLock, k, mid, e));
  }

  /** What each thread has still to do before its own stopping point. */
  function Gaps(threads: seq<Thread>, stop: seq<nat>): seq<int>
    requires |stop| == |threads|
  {
    seq(|threads|, i requires 0 <= i < |threads| => stop[i] - threads[i].done)
  }

  /** Threads that are not in the middle of an increment and not yet at their stopping point. */
  ghost predicate Free(k: nat, s: State, stop: seq<nat>)
    requires |stop| == |s.threads|
  {
    forall t :: 0 <= t < |stop| ==>
      s.threads[t].done <= stop[t] <= k && (s.threads[t].done < stop[t] ==> s.threads[t].phase == Ready)
  }

  /** Free threads can complete any number x of further increments one after the other. */
  lemma {:induction false} Advance(k: nat, s: State, stop: seq<nat>, x: nat) returns (es: seq<Event>, s': State)
    requires |stop| == |s.threads| && Free(k, s, stop) && x <= Sum(Gaps(s.threads, stop))
    ensures Run(false, k, s, es, s') && |s'.threads| == |s.threads| && s'.counter == s.counter + x
    ensures Free(k, s', stop) && Sum(Gaps(s'.threads, stop)) == Sum(Gaps(s.threads, stop)) - x
    ensures forall t :: 0 <= t < |stop| ==> s'.threads[t].phase == s.threads[t].phase
    ensures s'.holder == s.holder
    decreases x
  {
    if x == 0 {
      es, s' := [], s;
    } else {
      if forall t :: 0 <= t < |stop| ==> s.threads[t].done == stop[t] {
        SumBounds(Gaps(s.threads, stop), 0, 0);
        assert false;
      }
      var t :| 0 <= t < |stop| && s.threads[t].done < stop[t];
      var s2 := OneMore(k, s, stop, t);
      var fs;
      fs, s' := Advance(k, s2, stop, x - 1);
      es := [Load(t), Store(t)] + fs;
      RunAppend(false, k, s, [Load(t), Store(t)], s2, fs, s');
    }
  }

  /** A free thread completes one increment. */
  lemma OneMore(k: nat, s: State, stop: seq<nat>, t: nat) returns (s': State)
    requires |stop| == |s.threads| && Free(k, s, stop) && t < |stop| && s.threads[t].done < stop[t]
    ensures Run(false, k, s, [Load(t), Store(t)], s')
    ensures s' == s.(counter := s.counter + 1, threads := s.threads[t := Thread(s.threads[t].done + 1, Ready)])
    ensures Free(k, s', stop) && Sum(Gaps(s'.threads, stop)) == Sum(Gaps(s.threads, stop)) - 1
  {
    var s1 := Apply(false, k, s, Load(t));
    s' := Apply(false, k, s1, Store(t));
    assert [Load(t), Store(t)][1..] == [Store(t)] && [Store(t)][1..] == [];
    assert Gaps(s'.threads, stop) == Gaps(s.threads, stop)[t := stop[t] - s.threads[t].done - 1];
    SumUpdate(Gaps(s.threads, stop), t, stop[t] - s.threads[t].done - 1);
  }

  lemma GapsSum(threads: seq<Thread>, stop: seq<nat>)
    requires |stop| == |threads|
    ensures Sum(Gaps(threads, stop)) == Sum(stop) - Sum(Dones(threads))
  {
    if threads != [] {
      assert Gaps(threads, stop)[1..] == Gaps(threads[1..], stop[1..]);
      assert Dones(threads)[1..] == Dones(threads[1..]);
      GapsSum(threads[1..], stop[1..]);
    }
  }

  function Always(n: nat, k: nat): (r: seq<nat>)
    ensures |r| == n && Sum(r) == n * k && forall i :: 0 <= i < n ==> r[i] == k
  {
    if n == 0 then [] else
      assert n * k == k + (n - 1) * k;
      [k] + Always(n - 1, k)
  }

  lemma GapsNone(k: nat, s: State)
    requires Free(k, s, Always(|s.threads|, k)) && Sum(Gaps(s.threads, Always(|s.threads|, k))) == 0
    requires forall t :: 0 <= t < |s.threads| ==> s.threads[t].phase == Ready
    ensures AllDone(k, s)
  {
    var gaps := Gaps(s.threads, Always(|s.threads|, k));
    forall t | 0 <= t < |s.threads| ensures s.threads[t] == Thread(k, Ready) {
      SumUpdate(gaps, t, 0);
      SumNonNegative(gaps[t := 0]);
      assert gaps[t] == 0;
    }
  }

  /**
   Thread 0 holds a stale 0 while the others, each up to its stopping point, complete x increments; it then overwrites
   them with 1.
   */
  lemma LoseToZero(n: nat, k: nat, stop: seq<nat>, x: nat) returns (es: seq<Event>, s: State)
    requires |stop| == n >= 1 && k >= 1 && stop[0] == 0 && x <= Sum(stop)
    requires forall t :: 0 <= t < n ==> stop[t] <= k
    ensures Run(false, k, Start(n), es, s) && |s.threads| == n
    ensures s.counter == 1 && Sum(Dones(s.threads)) == x + 1
    ensures s.threads[0] == Thread(1, Ready) && forall t :: 1 <= t < n ==> s.threads[t].done <= stop[t]
    ensures forall t :: 0 <= t < n ==> s.threads[t].phase == Ready && s.threads[t].done <= k
  {
    RunSnoc(false, k, Start(n), [], Start(n), Load(0));
    es := [] + [Load(0)];
    var s1 := Apply(false, k, Start(n), Load(0));
    SumBounds(Dones(s1.threads), 0, 0);
    GapsSum(s1.threads, stop);
    var fs, s2 := Advance(k, s1, stop, x);
    GapsSum(s2.threads, stop);
    RunAppend(false, k, Start(n), es, s1, fs, s2);
    es := es + fs;
    RunSnoc(false, k, Start(n), es, s2, Store(0));
    s := Apply(false, k, s2, Store(0));
    DonesUpdate(s2.threads, 0, s.threads[0]);
    es := es + [Store(0)];
  }

  /** Thread 1 holds a stale 1 while thread 0 completes y increments, then overwrites them with 2. */
  lemma LoseToOne(k: nat, s: State, y: nat) returns (es: seq<Event>, s': State)
    requires k >= 2 && y <= k - 1 && |s.threads| >= 2
    requires s.counter == 1 && s.threads[0] == Thread(1, Ready) && s.threads[1].done < k
    requires forall t :: 0 <= t < |s.threads| ==> s.threads[t].phase == Ready && s.threads[t].done <= k
    ensures Run(false, k, s, es, s') && |s'.threads| == |s.threads|
    ensures s'.counter == 2 && Sum(Dones(s'.threads)) == Sum(Dones(s.threads)) + y + 1
    ensures forall t :: 0 <= t < |s.threads| ==> s'.threads[t].phase == Ready && s'.threads[t].done <= k
  {
    RunSnoc(false, k, s, [], s, Load(1));
    es := [] + [Load(1)];
    var s1 := Apply(false, k, s, Load(1));
    DonesUpdate(s.threads, 1, s1.threads[1]);
    var stop: seq<nat> := Stops(s1.threads)[0 := k];
    SumUpdate(Stops(s1.threads), 0, k);
    GapsSum(s1.threads, stop);
    var fs, s2 := Advance(k, s1, stop, y);
    GapsSum(s2.threads, stop);
    RunAppend(false, k, s, es, s1, fs, s2);
    es := es + fs;
    assert s2.threads[1].done <= stop[1] < k;
    RunSnoc(false, k, s, es, s2, Store(1));
    s' := Apply(false, k, s2, Store(1));
    DonesUpdate(s2.threads, 1, s'.threads[1]);
    es := es + [Store(1)];
  }

  lemma LoseExactly(n: nat, k: nat, x: nat, y: nat) returns (es: seq<Event>, s: State)
    requires n >= 2 && k >= 2 && x <= (n - 1) * k - 1 && y <= k - 1
    ensures Run(false, k, Start(n), es, s) && AllDone(k, s)
    ensures s.counter + x + y == n * k
  {
    var stop: seq<nat> := Always(n, k)[0 := 0][1 := k - 1];
    SumUpdate(Always(n, k), 0, 0);
    SumUpdate(Always(n, k)[0 := 0], 1, k - 1);
    assert n * k == k + (n - 1) * k;
    var s1, s2;
    es, s1 := LoseToZero(n, k, stop, x);
    var fs;
    fs, s2 := LoseToOne(k, s1, y);
    RunAppend(false, k, Start(n), es, s1, fs, s2);
    es := es + fs;
    GapsSum(s2.threads, Always(n, k));
    var gs;
    gs, s := Advance(k, s2, Always(n, k), n * k - x - y - 2);
    RunAppend(false, k, Start(n), es, s2, gs, s);
    es := es + gs;
    GapsNone(k, s);
  }

  function Stops(threads: seq<Thread>): (r: seq<nat>)
    ensures |r| == |threads|
  {
    seq(|threads|, i requires 0 <= i < |threads| => threads[i].done)
  }

  /**
   With one increment each: thread 0 holds a stale 0 while x others finish, overwrites them with 1, and the rest
   follow.
   */
  lemma LoseOnce(n: nat, x: nat) returns (es: seq<Event>, s: State)
    requires n >= 2 && x <= n - 1
    ensures Run(false, 1, Start(n), es, s) && AllDone(1, s) && s.counter + x == n
  {
    var all := Always(n, 1);
    SumUpdate(all, 0, 0);
    var s1;
    es, s1 := LoseToZero(n, 1, all[0 := 0], x);
    GapsSum(s1.threads, all);
    var fs;
    fs, s := Advance(1, s1, all, n - 1 - x);
    RunAppend(false, 1, Start(n), es, s1, fs, s);
    es := es + fs;
    GapsNone(1, s);
  }

  /** A thread on its own loses nothing. */
  lemma {:induction false} AloneRun(k: nat, s: State, es: seq<Event>, s': State)
    requires |s.threads| == 1 && s.counter == s.threads[0].done && Run(false, k, s, es, s')
    requires s.threads[0].phase.Loaded? ==> s.threads[0].phase.v == s.counter
    ensures |s'.threads| == 1 && s'.counter == s'.threads[0].done
    decreases |es|
  {
    if es != [] {
      AloneRun(k, Apply(false, k, s, es[0]), es[1..], s');
    }
  }

  lemma AloneFinishes(k: nat) returns (es: seq<Event>, s: State)
    ensures Run(false, k, Start(1), es, s) && AllDone(k, s) && s.counter == k
  {
    GapsSum(Start(1).threads, Always(1, k));
    SumBounds(Dones(Start(1).threads), 0, 0);
    es, s := Advance(k, Start(1), Always(1, k), k);
    GapsNone(k, s);
  }

  /** The least value n threads of k increments can end at. */
  function LeastResult(n: nat, k: nat): nat {
    if n == 1 then k else if k == 1 then 1 else 2
  }

  /**
   Without the lock, n threads of k increments may end at every value from the least to n * k, and at no other: the
   least is 2 once there are two threads and two increments, 1 when there is one increment each.
   */
  lemma UnlockedRange(n: nat, k: nat, v: nat)
    requires n >= 1 && k >= 1
    ensures CanReturn(false, n, k, v) <==> LeastResult(n, k) <= v <= n * k
  {
    if CanReturn(false, n, k, v) {
      var es, s :| Run(false, k, Start(n), es, s) && AllDone(k, s) && s.counter == v;
      UnlockedEnd(n, k, es, s);
    }
    if LeastResult(n, k) <= v <= n * k {
      var lost := n * k - v;
      assert n * k == k + (n - 1) * k;
      if n == 1 {
        var es, s := AloneFinishes(k);
      } else if k == 1 {
        var es, s := LoseOnce(n, lost);
      } else {
        var x := Min(lost, (n - 1) * k - 1);
        var es, s := LoseExactly(n, k, x, lost - x);
      }
    }
  }

  lemma UnlockedEnd(n: nat, k: nat, es: seq<Event>, s: State)
    requires n >= 1 && k >= 1 && Run(false, k, Start(n), es, s) && AllDone(k, s)
    ensures LeastResult(n, k) <= s.counter <= n * k
  {
    assert Start(n).threads[0].done == 0;
    SumBounds(Dones(Start(n).threads), 0, 0);
    UnlockedRun(k, Start(n), es, s);
    DonesOfFinished(k, s);
    assert s.threads[0].done >= 1;
    if n == 1 {
      AloneRun(k, Start(n), es, s);
    }
  }

  // ---------------------------------------------------------------- with the lock

  ghost predicate LockedInv(k: nat, s: State) {
    && s.counter == Sum(Dones(s.threads))
    && (forall t :: 0 <= t < |s.threads| ==>
         s.threads[t].done <= k && (s.threads[t].phase in {Ready, Stored} || s.threads[t].done < k))
    && (forall t :: 0 <= t < |s.threads| && s.threads[t].phase != Ready ==> s.holder == Some(t))
    && (forall t :: 0 <= t < |s.threads| && s.threads[t].phase.Loaded? ==> s.threads[t].phase.v == s.counter)
  }

  lemma {:induction false} LockedRun(k: nat, s: State, es: seq<Event>, s': State)
    requires LockedInv(k, s) && Run(true, k, s, es, s')
    ensures LockedInv(k, s') && |s'.threads| == |s.threads|
    decreases |es|
  {
    if es != [] {
      var next := Apply(true, k, s, es[0]);
      DonesUpdate(s.threads, es[0].t, next.threads[es[0].t]);
      LockedRun(k, next, es[1..], s');
    }
  }

  /** Under the lock, threads complete x more increments one after the other. */
  lemma {:induction false} LockedAdvance(k: nat, s: State, x: nat) returns (es: seq<Event>, s': State)
    requires s.holder == None && Free(k, s, Always(|s.threads|, k)) && x == Sum(Gaps(s.threads, Always(|s.threads|, k)))
    requires forall t :: 0 <= t < |s.threads| ==> s.threads[t].phase == Ready
    ensures Run(true, k, s, es, s') && AllDone(k, s')
    decreases x
  {
    var stop := Always(|s.threads|, k);
    if x == 0 {
      es, s' := [], s;
      GapsNone(k, s);
    } else {
      if forall t :: 0 <= t < |stop| ==> s.threads[t].done == stop[t] {
        SumBounds(Gaps(s.threads, stop), 0, 0);
        assert false;
      }
      var t :| 0 <= t < |stop| && s.threads[t].done < stop[t];
      var next := OneLocked(k, s, t);
      GapsSum(s.threads, stop);
      DonesUpdate(s.threads, t, next.threads[t]);
      GapsSum(next.threads, stop);
      var fs;
      fs, s' := LockedAdvance(k, next, x - 1);
      es := [Acquire(t), Load(t), Store(t), Release(t)] + fs;
      RunAppend(true, k, s, [Acquire(t), Load(t), Store(t), Release(t)], next, fs, s');
    }
  }

  lemma OneLocked(k: nat, s: State, t: nat) returns (s': State)
    requires t < |s.threads| && s.threads[t].done < k && s.threads[t].phase == Ready && s.holder == None
    ensures Run(true, k, s, [Acquire(t), Load(t), Store(t), Release(t)], s')
    ensures s' == s.(counter := s.counter + 1, threads := s.threads[t := Thread(s.threads[t].done + 1, Ready)])
  {
    var s1 := Apply(true, k, s, Acquire(t));
    var s2 := Apply(true, k, s1, Load(t));
    var s3 := Apply(true, k, s2, Store(t));
    s' := Apply(true, k, s3, Release(t));
    RunSnoc(true, k, s, [], s, Acquire(t));
    RunSnoc(true, k, s, [] + [Acquire(t)], s1, Load(t));
    RunSnoc(true, k, s, [] + [Acquire(t)] + [Load(t)], s2, Store(t));
    RunSnoc(true, k, s, [] + [Acquire(t)] + [Load(t)] + [Store(t)], s3, Release(t));
    assert [] + [Acquire(t)] + [Load(t)] + [Store(t)] + [Release(t)] == [Acquire(t), Load(t), Store(t), Release(t)];
  }

  /** With the lock, n threads of k increments can end, and end at n * k. */
  lemma LockedIsExact(n: nat, k: nat, v: nat)
    ensures CanReturn(true, n, k, v) <==> v == n * k
  {
    if CanReturn(true, n, k, v) {
      var es, s :| Run(true, k, Start(n), es, s) && AllDone(k, s) && s.counter == v;
      LockedEnd(n, k, es, s);
    }
    GapsSum(Start(n).threads, Always(n, k));
    SumBounds(Dones(Start(n).threads), 0, 0);
    var es, s := LockedAdvance(k, Start(n), n * k);
    LockedEnd(n, k, es, s);
  }

  lemma LockedEnd(n: nat, k: nat, es: seq<Event>, s: State)
    requires Run(true, k, Start(n), es, s) && AllDone(k, s)
    ensures s.counter == n * k
  {
    SumBounds(Dones(Start(n).threads), 0, 0);
    LockedRun(k, Start(n), es, s);
    DonesOfFinished(k, s);
  }

  /** The locked program never wedges: until all threads are done, one of them can step. */
  lemma LockedProgress(n: nat, k: nat, es: seq<Event>, s: State)
    requires Run(true, k, Start(n), es, s) && !AllDone(k, s)
    ensures exists e :: Enabled(true, k, s, e)
  {
    SumBounds(Dones(Start(n).threads), 0, 0);
    LockedRun(k, Start(n), es, s);
    HolderRun(k, Start(n), es, s);
    var t :| 0 <= t < |s.threads| && s.threads[t] != Thread(k, Ready);
    match s.holder
    case None => assert Enabled(true, k, s, Acquire(t));
    case Some(h) =>
      match s.threads[h].phase
      case Locked => assert Enabled(true, k, s, Load(h));
      case Loaded(_) => assert Enabled(true, k, s, Store(h));
      case Stored => assert Enabled(true, k, s, Release(h));
  }

  lemma {:induction false} HolderRun(k: nat, s: State, es: seq<Event>, s': State)
    requires Run(true, k, s, es, s')
    requires s.holder.Some? ==> s.holder.value < |s.threads| && s.threads[s.holder.value].phase != Ready
    requires LockedInv(k, s)
    ensures s'.holder.Some? ==> s'.holder.value < |s'.threads| && s'.threads[s'.holder.value].phase != Ready
    decreases |es|
  {
    if es != [] {
      var next := Apply(true, k, s, es[0]);
      assert [es[0]][1..] == [] && Run(true, k, s, [es[0]], next);
      LockedRun(k, s, [es[0]], next);
      HolderRun(k, next, es[1..], s');
    }
  }

  // ---------------------------------------------------------------- cache stampede

  const ANSWER: int := 42

  /** `Counting(seen)`: inside `compute`, the thread has read the call count and not yet stored seen + 1. */
  datatype Getter = Asking | Inside | Missed | Counting(seen: nat) | Computed | Filled | Got(v: int)

  /**
   `cache` is the entry of the shared key; `calls` is the program's own count of runs of `compute`, kept by a load and
   a store like any other; `runs` is how many there were.
   */
  datatype Stampede = Stampede(cache: Option<int>, calls: nat, runs: nat, holder: Option<nat>, getters: seq<Getter>)

  datatype Act = Enter(t: nat) | Check(t: nat) | Compute(t: nat) | Count(t: nat) | Fill(t: nat) | Read(t: nat)

  /** The locked getter leaves the lock when its check hits or its fill is written. */
  predicate CanAct(useLock: bool, s: Stampede, a: Act) {
    a.t < |s.getters| &&
    match a
    case Enter(t) => useLock && s.getters[t] == Asking && s.holder == None
    case Check(t) => s.getters[t] == if useLock then Inside else Asking
    case Compute(t) => s.getters[t] == Missed
    case Count(t) => s.getters[t].Counting?
    case Fill(t) => s.getters[t] == Computed
    case Read(t) => s.getters[t] == Filled && s.cache.Some?
  }

  function Do(useLock: bool, s: Stampede, a: Act): Stampede
    requires CanAct(useLock, s, a)
  {
    match a
    case Enter(t) => s.(holder := Some(t), getters := s.getters[t := Inside])
    case Check(t) =>
      if s.cache == None then s.(getters := s.getters[t := Missed])
      else s.(getters := s.getters[t := Filled], holder := if useLock then None else s.holder)
    case Compute(t) => s.(runs := s.runs + 1, getters := s.getters[t := Counting(s.calls)])
    case Count(t) => s.(calls := s.getters[t].seen + 1, getters := s.getters[t := Computed])
    case Fill(t) =>
      s.(cache := Some(ANSWER), getters := s.getters[t := Filled], holder := if useLock then None else s.holder)
    case Read(t) => s.(getters := s.getters[t := Got(s.cache.value)])
  }

  ghost predicate Plays(useLock: bool, s: Stampede, acts: seq<Act>, s': Stampede)
    decreases |acts|
  {
    if acts == [] then s == s'
    else CanAct(useLock, s, acts[0]) && Plays(useLock, Do(useLock, s, acts[0]), acts[1..], s')
  }

  function Cold(n: nat): Stampede {
    Stampede(None, 0, 0, None, seq(n, _ => Asking))
  }

  predicate AllGot(s: Stampede) {
    forall t :: 0 <= t < |s.getters| ==> s.getters[t].Got?
  }

  /** The joined program can have run `compute` so many times and return such a count of them. */
  ghost predicate CanCompute(useLock: bool, n: nat, runs: nat, calls: nat) {
    exists acts, s :: Plays(useLock, Cold(n), acts, s) && AllGot(s) && s.runs == runs && s.calls == calls
  }

  /** Getters that may have run `compute`, at most once each. */
  function Costs(getters: seq<Getter>): seq<int> {
    seq(|getters|, i requires 0 <= i < |getters| => if getters[i] in {Asking, Inside, Missed} then 0 else 1)
  }

  predicate InCompute(g: Getter) { g.Counting? || g.Computed? }

  ghost predicate StampedeInv(useLock: bool, s: Stampede) {
    && s.calls <= s.runs <= Sum(Costs(s.getters))
    && (s.cache.Some? ==> s.calls >= 1 && s.cache.value == ANSWER)
    && (forall t :: 0 <= t < |s.getters| ==>
         match s.getters[t]
         case Counting(seen) => seen < s.runs
         case Computed => s.calls >= 1
         case Filled => s.cache.Some?
         case Got(v) => s.cache.Some? && v == ANSWER
         case _ => true)
    && (useLock ==> LockedStampede(s))
  }

  ghost predicate LockedStampede(s: Stampede) {
    && s.runs <= 1
    && (forall t :: 0 <= t < |s.getters| && (s.getters[t] in {Inside, Missed} || InCompute(s.getters[t])) ==>
         s.holder == Some(t))
    && (forall t :: 0 <= t < |s.getters| && s.getters[t] == Missed ==> s.runs == 0)
    && (s.runs == 0 || s.cache.Some? || exists t :: 0 <= t < |s.getters| && InCompute(s.getters[t]))
  }

  lemma StampedeStep(useLock: bool, s: Stampede, a: Act)
    requires StampedeInv(useLock, s) && CanAct(useLock, s, a)
    ensures StampedeInv(useLock, Do(useLock, s, a))
  {
    var s' := Do(useLock, s, a);
    var cost := if s'.getters[a.t] in {Asking, Inside, Missed} then 0 else 1;
    assert Costs(s'.getters) == Costs(s.getters)[a.t := cost];
    SumUpdate(Costs(s.getters), a.t, cost);
    if useLock {
      LockedStep(s, a);
    }
  }

  lemma LockedStep(s: Stampede, a: Act)
    requires LockedStampede(s) && CanAct(true, s, a)
    ensures LockedStampede(Do(true, s, a))
  {
    var s' := Do(true, s, a);
    if a.Compute? {
      assert InCompute(s'.getters[a.t]);
    } else if s.runs > 0 && s.cache == None {
      var t :| 0 <= t < |s.getters| && InCompute(s.getters[t]);
      assert InCompute(s'.getters[t]) || s'.cache.Some?;
    }
  }

  lemma {:induction false} StampedeRun(useLock: bool, s: Stampede, acts: seq<Act>, s': Stampede)
    requires StampedeInv(useLock, s) && Plays(useLock, s, acts, s')
    ensures StampedeInv(useLock, s') && |s'.getters| == |s.getters|
    decreases |acts|
  {
    if acts != [] {
      StampedeStep(useLock, s, acts[0]);
      StampedeRun(useLock, Do(useLock, s, acts[0]), acts[1..], s');
    }
  }

  lemma ColdInv(useLock: bool, n: nat)
    ensures StampedeInv(useLock, Cold(n))
  {
    SumBounds(Costs(Cold(n).getters), 0, 0);
  }

  lemma {:induction false} PlaysAppend(useLock: bool, s: Stampede, acts: seq<Act>, mid: Stampede,
                                       more: seq<Act>, s': Stampede)
    requires Plays(useLock, s, acts, mid) && Plays(useLock, mid, more, s')
    ensures Plays(useLock, s, acts + more, s')
    decreases |acts|
  {
    if acts == [] {
      assert acts + more == more;
    } else {
      assert (acts + more)[1..] == acts[1..] + more;
      PlaysAppend(useLock, Do(useLock, s, acts[0]), acts[1..], mid, more, s');
    }
  }

  /** Getters t..m-1 all look before anything is cached. */
  lemma {:induction false} AllMiss(s: Stampede, t: nat, m: nat) returns (acts: seq<Act>, s': Stampede)
    requires t <= m <= |s.getters| && s.cache == None
    requires forall i :: t <= i < m ==> s.getters[i] == Asking
    ensures Plays(false, s, acts, s') && |s'.getters| == |s.getters|
    ensures s' == s.(getters := s'.getters)
    ensures forall i :: 0 <= i < |s.getters| ==> s'.getters[i] == if t <= i < m then Missed else s.getters[i]
    decreases |s.getters| - t
  {
    if t == m {
      acts, s' := [], s;
    } else {
      var next := Do(false, s, Check(t));
      var more;
      more, s' := AllMiss(next, t + 1, m);
      acts := [Check(t)] + more;
      assert acts[1..] == more;
    }
  }

  /** Getters t..j-1, all having missed, read the call count before any of them stores it. */
  lemma {:induction false} AllRead(s: Stampede, t: nat, j: nat) returns (acts: seq<Act>, s': Stampede)
    requires t <= j <= |s.getters|
    requires forall i :: t <= i < j ==> s.getters[i] == Missed
    ensures Plays(false, s, acts, s') && |s'.getters| == |s.getters|
    ensures s' == s.(runs := s.runs + (j - t), getters := s'.getters)
    ensures forall i :: 0 <= i < |s.getters| ==> s'.getters[i] == if t <= i < j then Counting(s.calls) else s.getters[i]
    decreases |s.getters| - t
  {
    if t == j {
      acts, s' := [], s;
    } else {
      var next := Do(false, s, Compute(t));
      var more;
      more, s' := AllRead(next, t + 1, j);
      acts := [Compute(t)] + more;
      assert acts[1..] == more;
    }
  }

  /**
   Getters t.. finish alone: those below j store a stale 1, those below m count properly, the rest find the answer.
   */
  lemma {:induction false} FinishAll(s: Stampede, t: nat, j: nat, m: nat) returns (acts: seq<Act>, s': Stampede)
    requires t <= |s.getters| && j <= m <= |s.getters| && (s.cache.Some? || t < m)
    requires forall i :: 0 <= i < t ==> s.getters[i].Got?
    requires forall i :: t <= i < j ==> s.getters[i] == Counting(0)
    requires forall i :: Max(t, j) <= i < m ==> s.getters[i] == Missed
    requires forall i :: Max(t, m) <= i < |s.getters| ==> s.getters[i] == Asking
    ensures Plays(false, s, acts, s') && AllGot(s')
    ensures var more := if t < m then m - Max(t, j) else 0;
            s'.calls == (if t < j then 1 else s.calls) + more && s'.runs == s.runs + more
    decreases |s.getters| - t
  {
    if t == |s.getters| {
      acts, s' := [], s;
    } else {
      var first, next := FinishOne(s, t);
      var more;
      more, s' := FinishAll(next, t + 1, j, m);
      PlaysAppend(false, s, first, next, more, s');
      acts := first + more;
    }
  }

  /** One getter from where it stands to its answer. */
  lemma FinishOne(s: Stampede, t: nat) returns (acts: seq<Act>, s': Stampede)
    requires t < |s.getters|
      && (s.getters[t].Counting? || s.getters[t] == Missed || (s.getters[t] == Asking && s.cache.Some?))
    ensures Plays(false, s, acts, s') && s'.cache.Some? && |s'.getters| == |s.getters| && s'.getters[t].Got?
    ensures s'.getters == s.getters[t := s'.getters[t]]
    ensures s'.calls == if s.getters[t].Counting? then s.getters[t].seen + 1
                        else if s.getters[t] == Missed then s.calls + 1
                        else s.calls
    ensures s'.runs == s.runs + if s.getters[t] == Missed then 1 else 0
  {
    if s.getters[t] == Asking {
      var s1 := Do(false, s, Check(t));
      s' := Do(false, s1, Read(t));
      PlaysCons(false, s1, Read(t), [], s');
      PlaysCons(false, s, Check(t), [Read(t)] + [], s');
      acts := [Check(t)] + ([Read(t)] + []);
    } else {
      var s1 := if s.getters[t] == Missed then Do(false, s, Compute(t)) else s;
      acts, s' := CountOne(false, s1, t);
      if s.getters[t] == Missed {
        PlaysCons(false, s, Compute(t), acts, s');
        acts := [Compute(t)] + acts;
      }
    }
  }

  /** A getter inside `compute` counts it, fills the cache and reads it back. */
  lemma CountOne(useLock: bool, s: Stampede, t: nat) returns (acts: seq<Act>, s': Stampede)
    requires t < |s.getters| && s.getters[t].Counting?
    ensures Plays(useLock, s, acts, s')
    ensures s' == Stampede(Some(ANSWER), s.getters[t].seen + 1, s.runs, if useLock then None else s.holder,
                           s.getters[t := Got(ANSWER)])
  {
    var s1 := Do(useLock, s, Count(t));
    var s2 := Do(useLock, s1, Fill(t));
    s' := Do(useLock, s2, Read(t));
    PlaysCons(useLock, s2, Read(t), [], s');
    PlaysCons(useLock, s1, Fill(t), [Read(t)] + [], s');
    PlaysCons(useLock, s, Count(t), [Fill(t)] + ([Read(t)] + []), s');
    acts := [Count(t)] + ([Fill(t)] + ([Read(t)] + []));
  }

  lemma PlaysCons(useLock: bool, s: Stampede, a: Act, more: seq<Act>, s': Stampede)
    requires CanAct(useLock, s, a) && Plays(useLock, Do(useLock, s, a), more, s')
    ensures Plays(useLock, s, [a] + more, s')
  {
    assert ([a] + more)[1..] == more;
  }

  /**
   Without the lock, n >= 1 getters may run `compute` m times and count c of them for 1 <= c <= m <= n, and no
   other.
   */
  lemma UnlockedStampedeRange(n: nat, runs: nat, calls: nat)
    requires n >= 1
    ensures CanCompute(false, n, runs, calls) <==> 1 <= calls <= runs <= n
  {
    if CanCompute(false, n, runs, calls) {
      var acts, s :| Plays(false, Cold(n), acts, s) && AllGot(s) && s.runs == runs && s.calls == calls;
      UnlockedStampedeEnd(n, acts, s);
    }
    if 1 <= calls <= runs <= n {
      var acts, s := StampedeWith(n, runs, calls);
    }
  }

  lemma UnlockedStampedeEnd(n: nat, acts: seq<Act>, s: Stampede)
    requires n >= 1 && Plays(false, Cold(n), acts, s) && AllGot(s)
    ensures 1 <= s.calls <= s.runs <= n
  {
    ColdInv(false, n);
    StampedeRun(false, Cold(n), acts, s);
    SumBounds(Costs(s.getters), 0, 1);
    assert s.getters[0].Got?;
  }

  /** `runs` getters miss, all but calls - 1 of them read the same count, and then each finishes on its own. */
  lemma StampedeWith(n: nat, runs: nat, calls: nat) returns (acts: seq<Act>, s: Stampede)
    requires 1 <= calls <= runs <= n
    ensures Plays(false, Cold(n), acts, s) && AllGot(s) && s.runs == runs && s.calls == calls
  {
    var acts1, s1 := AllMiss(Cold(n), 0, runs);
    var acts2, s2 := AllRead(s1, 0, runs - calls + 1);
    var acts3;
    acts3, s := FinishAll(s2, 0, runs - calls + 1, runs);
    PlaysAppend(false, Cold(n), acts1, s1, acts2, s2);
    PlaysAppend(false, Cold(n), acts1 + acts2, s2, acts3, s);
    acts := acts1 + acts2 + acts3;
  }

  /** With the lock, every getter returns the answer of one run of `compute`. */
  lemma LockedStampedeOnce(n: nat, acts: seq<Act>, s: Stampede)
    requires n >= 1 && Plays(true, Cold(n), acts, s) && AllGot(s)
    ensures s.runs == s.calls == 1
    ensures forall t :: 0 <= t < |s.getters| ==> s.getters[t] == Got(ANSWER)
  {
    ColdInv(true, n);
    StampedeRun(true, Cold(n), acts, s);
    assert s.getters[0].Got?;
  }

  /** Locked getters t.. pass one after the other; the first of all computes. */
  lemma {:induction false} LockedFinishAll(s: Stampede, t: nat) returns (acts: seq<Act>, s': Stampede)
    requires t <= |s.getters| && s.holder == None
    requires forall i :: 0 <= i < t ==> s.getters[i].Got?
    requires forall i :: t <= i < |s.getters| ==> s.getters[i] == Asking
    ensures Plays(true, s, acts, s') && AllGot(s')
    decreases |s.getters| - t
  {
    if t == |s.getters| {
      acts, s' := [], s;
    } else {
      var first, next := LockedPass(s, t);
      var more;
      more, s' := LockedFinishAll(next, t + 1);
      PlaysAppend(true, s, first, next, more, s');
      acts := first + more;
    }
  }

  lemma LockedPass(s: Stampede, t: nat) returns (acts: seq<Act>, s': Stampede)
    requires t < |s.getters| && s.holder == None && s.getters[t] == Asking
    ensures Plays(true, s, acts, s') && s'.holder == None && |s'.getters| == |s.getters| && s'.getters[t].Got?
    ensures s'.getters == s.getters[t := s'.getters[t]]
  {
    var s1 := Do(true, s, Enter(t));
    var s2 := Do(true, s1, Check(t));
    if s.cache.Some? {
      s' := Do(true, s2, Read(t));
      PlaysCons(true, s2, Read(t), [], s');
      acts := [Read(t)] + [];
    } else {
      acts, s' := CountOne(true, Do(true, s2, Compute(t)), t);
      PlaysCons(true, s2, Compute(t), acts, s');
      acts := [Compute(t)] + acts;
    }
    PlaysCons(true, s1, Check(t), acts, s');
    PlaysCons(true, s, Enter(t), [Check(t)] + acts, s');
    acts := [Enter(t)] + ([Check(t)] + acts);
  }

  /** With the lock, n >= 1 getters can finish, with exactly one run of `compute` and a count of one. */
  lemma LockedStampedeExactly(n: nat, runs: nat, calls: nat)
    requires n >= 1
    ensures CanCompute(true, n, runs, calls) <==> runs == 1 && calls == 1
  {
    if CanCompute(true, n, runs, calls) {
      var acts, s :| Plays(true, Cold(n), acts, s) && AllGot(s) && s.runs == runs && s.calls == calls;
      LockedStampedeOnce(n, acts, s);
    }
    var acts, s := LockedFinishAll(Cold(n), 0);
    LockedStampedeOnce(n, acts, s);
  }

  // ---------------------------------------------------------------- the same steps, in place

  /** The shared counter and the threads that load and store it. */
  class Counter {
    const useLock: bool
    const k: nat
    var counter: nat
    var holder: Option<nat>
    const threads: array<Thread>

    ghost function View(): State
      reads this, threads
    {
      State(counter, holder, threads[..])
    }

    constructor (useLock: bool, n: nat, k: nat)
      ensures this.useLock == useLock && this.k == k && View() == Start(n) && fresh(threads)
    {
      this.useLock, this.k := useLock, k;
      counter, holder := 0, None;
      threads := new Thread[n](_ => Thread(0, Ready));
      new;
      assert threads[..] == Start(n).threads;
    }

    method Do(e: Event)
      requires Enabled(useLock, k, View(), e)
      modifies this, threads
      ensures View() == Apply(useLock, k, old(View()), e)
    {
      var me := threads[e.t];
      match e
      case Acquire(t) =>
        holder := Some(t);
        threads[t] := me.(phase := Locked);
      case Load(t) => threads[t] := me.(phase := Loaded(counter));
      case Store(t) =>
        counter := me.phase.v + 1;
        threads[t] := Thread(me.done + 1, if useLock then Stored else Ready);
      case Release(t) =>
        holder := None;
        threads[t] := me.(phase := Ready);
    }

    /** Any schedule of steps, executed on the counter, is a run of the step system. */
    method Execute(es: seq<Event>, ghost final: State)
      requires Run(useLock, k, View(), es, final)
      modifies this, threads
      ensures View() == final
    {
      for i := 0 to |es|
        invariant Run(useLock, k, View(), es[i..], final)
      {
        assert es[i..][0] == es[i] && es[i..][1..] == es[i + 1..];
        Do(es[i]);
      }
    }
  }

  /** The shared cache and the threads that look, compute and fill. */
  class Cache {
    const useLock: bool
    var cache: Option<int>
    var calls: nat
    ghost var runs: nat
    var holder: Option<nat>
    const getters: array<Getter>

    ghost function View(): Stampede
      reads this, getters
    {
      Stampede(cache, calls, runs, holder, getters[..])
    }

    constructor (useLock: bool, n: nat)
      ensures this.useLock == useLock && View() == Cold(n) && fresh(getters)
    {
      this.useLock := useLock;
      cache, calls, runs, holder := None, 0, 0, None;
      getters := new Getter[n](_ => Asking);
      new;
      assert getters[..] == Cold(n).getters;
    }

    method Play(a: Act)
      requires CanAct(useLock, View(), a)
      modifies this, getters
      ensures View() == Do(useLock, old(View()), a)
    {
      match a
      case Enter(t) =>
        holder := Some(t);
        getters[t] := Inside;
      case Check(t) =>
        if cache == None {
          getters[t] := Missed;
        } else {
          getters[t] := Filled;
          Leave();
        }
      case Compute(t) =>
        runs := runs + 1;
        getters[t] := Counting(calls);
      case Count(t) =>
        calls := getters[t].seen + 1;
        getters[t] := Computed;
      case Fill(t) =>
        cache := Some(ANSWER);
        getters[t] := Filled;
        Leave();
      case Read(t) => getters[t] := Got(cache.value);
    }

    method Leave()
      modifies this`holder
      ensures holder == if useLock then None else old(holder)
    {
      if useLock {
        holder := None;
      }
    }

    method Execute(acts: seq<Act>, ghost final: Stampede)
      requires Plays(useLock, View(), acts, final)
      modifies this, getters
      ensures View() == final
    {
      for i := 0 to |acts|
        invariant Plays(useLock, View(), acts[i..], final)
      {
        assert acts[i..][0] == acts[i] && acts[i..][1..] == acts[i + 1..];
        Play(acts[i]);
      }
    }
  }
}
