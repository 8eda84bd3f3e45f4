/**
 Runs of the hand-rolled pool against a clock, all clients arriving at tick 0: a client sleeps for exactly its hold, a
 wait may time out once its limit is over, and the clock moves on only when no thread has anything left to do but
 sleep or wait. Their hand-outs are the schedules whose length Little's Law gives.
 */
module TimedPool {
  import opened Common
  import P = HandRolledPool
  import L = LittlesLaw

  datatype Config = Config(policy: P.Policy, size: nat, hold: nat, limit: nat)

  /** `log`: the hand-outs so far, in order. `mine[t]`: which of them is thread t's latest. */
  datatype Timed = Timed(now: nat, pool: P.State, log: seq<L.Hold>, mine: seq<nat>)

  datatype Move = Act(e: P.Event) | Tick

  /** Thread t has held its connection for long enough. */
  predicate Due(cfg: Config, z: Timed, t: nat) {
    t < |z.mine| && z.mine[t] < |z.log| && z.log[z.mine[t]].start + cfg.hold <= z.now
  }

  predicate Allowed(cfg: Config, z: Timed, e: P.Event) {
    && P.Enabled(cfg.policy, z.pool, e)
    && (e.Release? ==> Due(cfg, z, e.t))
    && (e.TimeUp? ==> z.now >= cfg.limit)
  }

  ghost predicate CanMove(cfg: Config, z: Timed, m: Move) {
    match m
    case Act(e) => Allowed(cfg, z, e)
    case Tick => forall e :: Allowed(cfg, z, e) ==> e.Spurious?
  }

  function Performed(cfg: Config, z: Timed, e: P.Event): Timed
    requires Allowed(cfg, z, e) && |z.mine| == |z.pool.threads|
  {
    var pool := P.Apply(cfg.policy, z.pool, e);
    if pool.threads[e.t].Holding? then
      Timed(z.now, pool, z.log + [L.Hold(pool.threads[e.t].id, z.now)], z.mine[e.t := |z.log|])
    else
      z.(pool := pool)
  }

  ghost function Next(cfg: Config, z: Timed, m: Move): (z': Timed)
    requires CanMove(cfg, z, m) && |z.mine| == |z.pool.threads|
    ensures |z'.mine| == |z'.pool.threads| == |z.mine|
  {
    match m
    case Act(e) => Performed(cfg, z, e)
    case Tick => z.(now := z.now + 1)
  }

  ghost predicate Run(cfg: Config, z: Timed, ms: seq<Move>, z': Timed)
    requires |z.mine| == |z.pool.threads|
    decreases |ms|
  {
    if ms == [] then z == z'
    else CanMove(cfg, z, ms[0]) && Run(cfg, Next(cfg, z, ms[0]), ms[1..], z')
  }

  function Start(cfg: Config, clients: nat): Timed {
    Timed(0, P.Start(cfg.size, clients), [], seq(clients, _ => 0))
  }

  predicate Waits(cfg: Config) {
    cfg.policy in {P.BlockForever, P.Timeout} && cfg.size >= 1 && cfg.hold >= 1
  }

  predicate AllOver(z: Timed) {
    forall t :: 0 <= t < |z.pool.threads| ==> P.Over(z.pool.threads[t])
  }

  // ---------------------------------------------------------------- the invariant

  predicate Unserved(ph: P.Phase) { ph in {P.Arriving, P.Parked, P.Woken} }

  predicate AnyUnserved(z: Timed) {
    exists t :: 0 <= t < |z.pool.threads| && Unserved(z.pool.threads[t])
  }

  predicate HoldsEntry(z: Timed, t: nat, k: nat)
    requires k < |z.log|
  {
    P.Held(z.pool, t, z.log[k].conn) && t < |z.mine| && z.mine[t] == k
  }

  /** Whoever holds a connection has its hand-out in the log, and is not late in returning it. */
  ghost predicate HolderLogged(cfg: Config, z: Timed, t: nat)
    requires t < |z.pool.threads| == |z.mine|
  {
    z.pool.threads[t].Holding? ==>
      z.mine[t] < |z.log| && HoldsEntry(z, t, z.mine[t]) && z.now <= z.log[z.mine[t]].start + cfg.hold
  }

  /** A hand-out is over, or its connection is still in somebody's hands. */
  ghost predicate EntryKept(cfg: Config, z: Timed, k: nat)
    requires k < |z.log|
  {
    z.log[k].start <= z.now && (z.log[k].start + cfg.hold <= z.now || exists t :: HoldsEntry(z, t, k))
  }

  ghost predicate Logged(cfg: Config, z: Timed) {
    && |z.mine| == |z.pool.threads|
    && (forall t :: 0 <= t < |z.pool.threads| ==> HolderLogged(cfg, z, t))
    && (forall k :: 0 <= k < |z.log| ==> EntryKept(cfg, z, k))
  }

  ghost predicate Inv(cfg: Config, clients: nat, z: Timed) {
    && P.Inv(cfg.policy, cfg.size, clients, z.pool)
    && Logged(cfg, z)
    && L.Feasible(z.log, cfg.size, cfg.hold) && L.ZeroDelay(z.log, cfg.size, cfg.hold)
    && |z.log| == z.pool.served
    && (AnyUnserved(z) ==> L.AllBusy(z.log, cfg.size, cfg.hold, z.now))
    && (forall t :: 0 <= t < |z.pool.threads| ==> z.pool.threads[t] != P.TimedOut)
    && (clients <= cfg.size ==> forall t :: 0 <= t < |z.pool.threads| ==> z.pool.threads[t] !in {P.Parked, P.Woken})
  }

  lemma StartInv(cfg: Config, clients: nat)
    requires Waits(cfg)
    ensures Inv(cfg, clients, Start(cfg, clients))
  {
    P.InitInv(cfg.policy, cfg.size, clients);
  }

  lemma BusyGrows(log: seq<L.Hold>, h: L.Hold, size: nat, hold: nat, end: nat)
    requires L.AllBusy(log, size, hold, end)
    ensures L.AllBusy(log + [h], size, hold, end)
  {
    forall c, t | 1 <= c <= size && 0 <= t < end ensures L.Busy(log + [h], hold, c, t) {
      assert L.Busy(log, hold, c, t);
      var j: nat :| L.BusyWith(log, hold, c, t, j);
      assert L.BusyWith(log + [h], hold, c, t, j);
    }
  }

  /** A connection that is idle was last handed out a whole hold ago. */
  lemma IdleIsFree(cfg: Config, z: Timed, id: int, k: nat)
    requires P.Connections(z.pool) && Logged(cfg, z) && id in z.pool.idle && k < |z.log| && z.log[k].conn == id
    ensures z.log[k].start + cfg.hold <= z.now
  {
    assert EntryKept(cfg, z, k) && !P.SomeoneHolds(z.pool, id);
  }

  predicate Hands(cfg: Config, z: Timed, e: P.Event) {
    P.Enabled(cfg.policy, z.pool, e) && z.pool.idle != [] && (e.Enter? || e.Wake? || e.TimeUp?)
  }

  /** A hand-out keeps the log a schedule without overlap and without delay. */
  lemma HandOutSchedule(cfg: Config, clients: nat, z: Timed, e: P.Event)
    requires Inv(cfg, clients, z) && Waits(cfg) && Allowed(cfg, z, e) && Hands(cfg, z, e)
    ensures var z' := Performed(cfg, z, e);
            z'.log == z.log + [L.Hold(z.pool.idle[|z.pool.idle| - 1], z.now)] &&
            L.Feasible(z'.log, cfg.size, cfg.hold) && L.ZeroDelay(z'.log, cfg.size, cfg.hold) &&
            L.AllBusy(z'.log, cfg.size, cfg.hold, z.now)
  {
    var id := z.pool.idle[|z.pool.idle| - 1];
    var h := L.Hold(id, z.now);
    assert id in z.pool.idle && 1 <= id <= cfg.size;
    assert Unserved(z.pool.threads[e.t]);
    BusyGrows(z.log, h, cfg.size, cfg.hold, z.now);
    forall k | 0 <= k < |z.log| ensures L.AllBusy(z.log + [h], cfg.size, cfg.hold, z.log[k].start) {
      BusyGrows(z.log, h, cfg.size, cfg.hold, z.log[k].start);
    }
    forall k: nat | k < |z.log| && z.log[k].conn == id ensures z.log[k].start + cfg.hold <= z.now {
      IdleIsFree(cfg, z, id, k);
    }
  }

  lemma HandOutLogged(cfg: Config, z: Timed, e: P.Event)
    requires Logged(cfg, z) && Allowed(cfg, z, e) && Hands(cfg, z, e)
    ensures Logged(cfg, Performed(cfg, z, e))
  {
    var z' := Performed(cfg, z, e);
    forall t | 0 <= t < |z.pool.threads| ensures HolderLogged(cfg, z', t) {
      assert HolderLogged(cfg, z, t);
    }
    forall k | 0 <= k < |z'.log| ensures EntryKept(cfg, z', k) {
      if k == |z.log| {
        assert HoldsEntry(z', e.t, k);
      } else {
        assert EntryKept(cfg, z, k);
        if t :| HoldsEntry(z, t, k) {
          assert HoldsEntry(z', t, k);
        }
      }
    }
  }

  /** Steps that hand nothing out leave the log as it is. */
  lemma OtherLogged(cfg: Config, z: Timed, e: P.Event)
    requires Logged(cfg, z) && P.Connections(z.pool) && Waits(cfg) && Allowed(cfg, z, e) && !Hands(cfg, z, e)
    ensures Performed(cfg, z, e).log == z.log && Logged(cfg, Performed(cfg, z, e))
  {
    var z' := Performed(cfg, z, e);
    forall t | 0 <= t < |z.pool.threads| ensures HolderLogged(cfg, z', t) {
      assert HolderLogged(cfg, z, t);
    }
    forall k | 0 <= k < |z.log| ensures EntryKept(cfg, z', k) {
      assert EntryKept(cfg, z, k);
      if t :| HoldsEntry(z, t, k) {
        if e.Release? && t == e.t {
          assert Due(cfg, z, t);
        } else {
          assert HoldsEntry(z', t, k);
        }
      }
    }
  }

  function Conns(log: seq<L.Hold>): set<int> { set h | h in log :: h.conn }

  lemma {:induction false} FewConns(log: seq<L.Hold>)
    ensures |Conns(log)| <= |log|
  {
    if log != [] {
      assert Conns(log) == Conns(log[1..]) + {log[0].conn};
      FewConns(log[1..]);
    }
  }

  lemma {:induction false} UpTo(n: nat, s: set<int>)
    requires forall c :: 1 <= c <= n ==> c in s
    ensures |s| >= n
    decreases n
  {
    if n > 0 {
      UpTo(n - 1, s - {n});
    }
  }

  /** While fewer clients are served than there are connections, one is idle. */
  lemma RoomForAll(cfg: Config, clients: nat, z: Timed)
    requires Inv(cfg, clients, z) && Waits(cfg) && |z.log| < cfg.size
    ensures z.pool.idle != []
  {
    if z.pool.idle == [] {
      forall c | 1 <= c <= cfg.size ensures c in Conns(z.log) {
        assert P.SomeoneHolds(z.pool, c);
        var u: nat :| P.Held(z.pool, u, c);
        assert HolderLogged(cfg, z, u);
        assert z.log[z.mine[u]] in z.log;
      }
      UpTo(cfg.size, Conns(z.log));
      FewConns(z.log);
    }
  }

  lemma ActInv(cfg: Config, clients: nat, z: Timed, e: P.Event)
    requires Inv(cfg, clients, z) && Waits(cfg) && Allowed(cfg, z, e) && !e.TimeUp?
    ensures Inv(cfg, clients, Performed(cfg, z, e))
  {
    P.StepInv(cfg.policy, cfg.size, clients, z.pool, e);
    ActPhases(cfg, clients, z, e);
    if Hands(cfg, z, e) {
      HandOutSchedule(cfg, clients, z, e);
      HandOutLogged(cfg, z, e);
    } else {
      OtherLogged(cfg, z, e);
      if AnyUnserved(Performed(cfg, z, e)) {
        NobodyArrives(cfg, z, e);
      }
    }
  }

  lemma ActPhases(cfg: Config, clients: nat, z: Timed, e: P.Event)
    requires Inv(cfg, clients, z) && Waits(cfg) && Allowed(cfg, z, e) && !e.TimeUp?
    ensures var pool := Performed(cfg, z, e).pool;
            (forall t :: 0 <= t < |pool.threads| ==> pool.threads[t] != P.TimedOut) &&
            (clients <= cfg.size ==> forall t :: 0 <= t < |pool.threads| ==> pool.threads[t] !in {P.Parked, P.Woken}) &&
            pool.served == z.pool.served + if Hands(cfg, z, e) then 1 else 0
  {
    if e.Enter? && clients <= cfg.size {
      ServedBelow(cfg, clients, z, e.t);
      RoomForAll(cfg, clients, z);
    }
  }

  lemma NobodyArrives(cfg: Config, z: Timed, e: P.Event)
    requires |z.mine| == |z.pool.threads| && Allowed(cfg, z, e) && AnyUnserved(Performed(cfg, z, e))
    ensures AnyUnserved(z)
  {
    var z' := Performed(cfg, z, e);
    var t :| 0 <= t < |z'.pool.threads| && Unserved(z'.pool.threads[t]);
    assert Unserved(z.pool.threads[t]);
  }

  /** Nobody has anything to do at this tick, time limits and spurious wakeups aside. */
  ghost predicate Settled(cfg: Config, z: Timed) {
    forall e :: Allowed(cfg, z, e) ==> e.Spurious? || e.TimeUp?
  }

  /** A thread that is neither over, nor asleep, nor parked has something to do. */
  lemma SomethingToDo(cfg: Config, z: Timed, t: nat)
    requires t < |z.pool.threads|
    requires z.pool.threads[t] in {P.Arriving, P.Woken, P.Notifying} || (z.pool.threads[t].Holding? && Due(cfg, z, t))
    ensures exists e :: Allowed(cfg, z, e) && !e.Spurious? && !e.TimeUp?
  {
    match z.pool.threads[t]
    case Arriving => assert Allowed(cfg, z, P.Enter(t));
    case Woken => assert Allowed(cfg, z, P.Wake(t));
    case Holding(_) => assert Allowed(cfg, z, P.Release(t));
    case Notifying =>
      if P.NobodyParked(z.pool) {
        assert Allowed(cfg, z, P.Notify(t, None));
      } else {
        var x :| 0 <= x < |z.pool.threads| && z.pool.threads[x] == P.Parked;
        assert Allowed(cfg, z, P.Notify(t, Some(x)));
      }
  }

  lemma SettledPhases(cfg: Config, z: Timed, t: nat)
    requires Settled(cfg, z) && t < |z.pool.threads|
    ensures z.pool.threads[t] !in {P.Arriving, P.Woken, P.Notifying}
    ensures z.pool.threads[t].Holding? ==> !Due(cfg, z, t)
  {
    if z.pool.threads[t] in {P.Arriving, P.Woken, P.Notifying} || (z.pool.threads[t].Holding? && Due(cfg, z, t)) {
      SomethingToDo(cfg, z, t);
    }
  }

  /** While anybody is unserved, every connection is held and not yet due. */
  lemma SettledIsBusy(cfg: Config, clients: nat, z: Timed)
    requires Inv(cfg, clients, z) && Waits(cfg) && Settled(cfg, z) && AnyUnserved(z)
    ensures z.pool.idle == [] && L.AllBusy(z.log, cfg.size, cfg.hold, z.now + 1)
  {
    forall t | 0 <= t < |z.pool.threads|
      ensures !P.Is(P.WokenKind, z.pool.threads[t]) && !P.Is(P.NotifyingKind, z.pool.threads[t])
    {
      SettledPhases(cfg, z, t);
    }
    P.CountNone(P.WokenKind, z.pool.threads);
    P.CountNone(P.NotifyingKind, z.pool.threads);
    var x :| 0 <= x < |z.pool.threads| && Unserved(z.pool.threads[x]);
    SettledPhases(cfg, z, x);
    assert z.pool.threads[x] == P.Parked;
    forall c | 1 <= c <= cfg.size ensures L.Busy(z.log, cfg.hold, c, z.now) {
      HeldIsBusy(cfg, clients, z, c);
    }
  }

  lemma HeldIsBusy(cfg: Config, clients: nat, z: Timed, c: int)
    requires Inv(cfg, clients, z) && Waits(cfg) && Settled(cfg, z) && z.pool.idle == [] && 1 <= c <= cfg.size
    ensures L.Busy(z.log, cfg.hold, c, z.now)
  {
    assert P.SomeoneHolds(z.pool, c);
    var u: nat :| P.Held(z.pool, u, c);
    SettledPhases(cfg, z, u);
    assert HolderLogged(cfg, z, u) && EntryKept(cfg, z, z.mine[u]);
    assert L.BusyWith(z.log, cfg.hold, c, z.now, z.mine[u]);
  }

  lemma TickInv(cfg: Config, clients: nat, z: Timed)
    requires Inv(cfg, clients, z) && Waits(cfg) && Settled(cfg, z)
    ensures Inv(cfg, clients, z.(now := z.now + 1))
  {
    var z' := z.(now := z.now + 1);
    if AnyUnserved(z') {
      assert AnyUnserved(z);
      SettledIsBusy(cfg, clients, z);
    }
    forall t | 0 <= t < |z.pool.threads| ensures HolderLogged(cfg, z', t) {
      assert HolderLogged(cfg, z, t);
      SettledPhases(cfg, z, t);
    }
    forall k | 0 <= k < |z.log| ensures EntryKept(cfg, z', k) {
      assert EntryKept(cfg, z, k);
      if t :| HoldsEntry(z, t, k) {
        assert HoldsEntry(z', t, k);
      }
    }
  }

  // ---------------------------------------------------------------- time limits

  lemma {:induction false} CountAtMost(k: P.Kind, threads: seq<P.Phase>)
    ensures P.Count(k, threads) <= |threads|
  {
    if threads != [] {
      CountAtMost(k, threads[1..]);
    }
  }

  lemma ServedBelow(cfg: Config, clients: nat, z: Timed, t: nat)
    requires Inv(cfg, clients, z) && t < |z.pool.threads| && Unserved(z.pool.threads[t])
    ensures |z.log| < clients
  {
    P.CountUpdate(P.ServedKind, z.pool.threads, t, P.Finished);
    CountAtMost(P.ServedKind, z.pool.threads[t := P.Finished]);
  }

  /** The last round begins this late. */
  function LastRound(cfg: Config, clients: nat): int
    requires cfg.size >= 1
  {
    (L.Rounds(clients, cfg.size) - 1) * cfg.hold
  }

  /** Nobody is still waiting after the last round has begun. */
  lemma WaitEnds(cfg: Config, clients: nat, z: Timed, t: nat)
    requires Inv(cfg, clients, z) && Waits(cfg) && t < |z.pool.threads| && Unserved(z.pool.threads[t])
    ensures z.now <= LastRound(cfg, clients)
  {
    ServedBelow(cfg, clients, z, t);
    L.WaitBound(z.log, cfg.size, cfg.hold, clients, z.now);
  }

  /** No wait, a wait without limit, or one with a limit above the beginning of the last round. */
  predicate NeverLate(cfg: Config, clients: nat) {
    Waits(cfg) && (cfg.policy == P.BlockForever || clients <= cfg.size || cfg.limit > LastRound(cfg, clients))
  }

  lemma MoveInv(cfg: Config, clients: nat, z: Timed, m: Move)
    requires Inv(cfg, clients, z) && NeverLate(cfg, clients) && CanMove(cfg, z, m)
    ensures Inv(cfg, clients, Next(cfg, z, m))
  {
    match m
    case Tick => TickInv(cfg, clients, z);
    case Act(e) =>
      if e.TimeUp? {
        WaitEnds(cfg, clients, z, e.t);
      } else {
        ActInv(cfg, clients, z, e);
      }
  }

  lemma {:induction false} RunInv(cfg: Config, clients: nat, z: Timed, ms: seq<Move>, z': Timed)
    requires Inv(cfg, clients, z) && NeverLate(cfg, clients) && Run(cfg, z, ms, z')
    ensures Inv(cfg, clients, z')
    decreases |ms|
  {
    if ms != [] {
      MoveInv(cfg, clients, z, ms[0]);
      RunInv(cfg, clients, Next(cfg, z, ms[0]), ms[1..], z');
    }
  }

  // ---------------------------------------------------------------- how long the overload takes

  lemma {:induction false} LatestEnd(holds: seq<L.Hold>, hold: nat) returns (end: nat)
    requires holds != []
    ensures L.FinishesAt(holds, hold, end)
  {
    if |holds| == 1 {
      end := holds[0].start + hold;
    } else {
      var n := |holds| - 1;
      var before := holds[..n];
      end := LatestEnd(before, hold);
      var i :| 0 <= i < |before| && before[i].start + hold == end;
      assert holds[i] == before[i];
      if holds[n].start + hold > end {
        end := holds[n].start + hold;
      }
      forall k | 0 <= k < |holds| ensures holds[k].start + hold <= end {
        assert k < n ==> before[k] == holds[k];
      }
    }
  }

  /**
   Whoever a wakeup or a newcomer favours: when all is over, every client was served and none timed out, and the
   last hold ends at exactly ceil(clients / size) * hold.
   */
  lemma OverloadDrains(cfg: Config, clients: nat, ms: seq<Move>, z: Timed)
    requires NeverLate(cfg, clients) && clients >= 1 && Run(cfg, Start(cfg, clients), ms, z) && AllOver(z)
    ensures z.pool.served == |z.log| == clients && z.pool.timedOut == z.pool.refused == 0
    ensures L.Feasible(z.log, cfg.size, cfg.hold) && L.ZeroDelay(z.log, cfg.size, cfg.hold)
    ensures L.FinishesAt(z.log, cfg.hold, L.Rounds(clients, cfg.size) * cfg.hold)
  {
    StartInv(cfg, clients);
    RunInv(cfg, clients, Start(cfg, clients), ms, z);
    P.CountAll(P.ServedKind, z.pool.threads);
    P.CountNone(P.TimedOutKind, z.pool.threads);
    P.CountNone(P.RefusedKind, z.pool.threads);
    var end := LatestEnd(z.log, cfg.hold);
    L.ZeroDelayMakespan(z.log, cfg.size, cfg.hold, end);
  }

  // ---------------------------------------------------------------- that it does drain

  lemma {:induction false} RunAppend(cfg: Config, z: Timed, ms: seq<Move>, mid: Timed, more: seq<Move>, z': Timed)
    requires |z.mine| == |z.pool.threads| && |mid.mine| == |mid.pool.threads|
    requires Run(cfg, z, ms, mid) && Run(cfg, mid, more, z')
    ensures Run(cfg, z, ms + more, z')
    decreases |ms|
  {
    if ms == [] {
      assert ms + more == more;
    } else {
      assert (ms + more)[1..] == ms[1..] + more;
      RunAppend(cfg, Next(cfg, z, ms[0]), ms[1..], mid, more, z');
    }
  }

  lemma RunSnoc(cfg: Config, z: Timed, ms: seq<Move>, mid: Timed, m: Move)
    requires |z.mine| == |z.pool.threads| && |mid.mine| == |mid.pool.threads|
    requires Run(cfg, z, ms, mid) && CanMove(cfg, mid, m)
    ensures Run(cfg, z, ms + [m], Next(cfg, mid, m))
  {
    assert [m][1..] == [];
    RunAppend(cfg, z, ms, mid, [m], Next(cfg, mid, m));
  }

  /** At any tick the threads run out of things to do. */
  lemma {:induction false} Settle(cfg: Config, clients: nat, z: Timed) returns (ms: seq<Move>, z': Timed)
    requires Inv(cfg, clients, z) && Waits(cfg)
    ensures Run(cfg, z, ms, z') && Inv(cfg, clients, z') && z'.now == z.now && Settled(cfg, z')
    decreases Sum(P.Weights(z.pool.threads))
  {
    SumNonNegative(P.Weights(z.pool.threads));
    if Settled(cfg, z) {
      ms, z' := [], z;
    } else {
      var e :| Allowed(cfg, z, e) && !e.Spurious? && !e.TimeUp?;
      var next := Performed(cfg, z, e);
      ActInv(cfg, clients, z, e);
      P.StepDecreases(cfg.policy, z.pool, e);
      var more;
      more, z' := Settle(cfg, clients, next);
      ms := [Act(e)] + more;
      assert ms[1..] == more;
    }
  }

  /** The clock gets anywhere, as long as no time limit is over before. */
  lemma {:induction false} ReachTick(cfg: Config, clients: nat, tick: nat) returns (ms: seq<Move>, z: Timed)
    requires Waits(cfg) && (NeverLate(cfg, clients) || tick <= cfg.limit)
    ensures Run(cfg, Start(cfg, clients), ms, z) && Inv(cfg, clients, z) && z.now == tick
  {
    var z0 := Start(cfg, clients);
    StartInv(cfg, clients);
    if tick == 0 {
      ms, z := [], z0;
    } else {
      var z1;
      ms, z1 := ReachTick(cfg, clients, tick - 1);
      var more, z2 := Settle(cfg, clients, z1);
      RunAppend(cfg, z0, ms, z1, more, z2);
      ms := ms + more;
      OnlyTheClock(cfg, clients, z2);
      RunSnoc(cfg, z0, ms, z2, Tick);
      ms := ms + [Tick];
      z := Next(cfg, z2, Tick);
    }
  }

  lemma OnlyTheClock(cfg: Config, clients: nat, z: Timed)
    requires Inv(cfg, clients, z) && Settled(cfg, z) && Waits(cfg) && (NeverLate(cfg, clients) || z.now < cfg.limit)
    ensures CanMove(cfg, z, Tick) && Inv(cfg, clients, Next(cfg, z, Tick))
  {
    forall e | Allowed(cfg, z, e) ensures e.Spurious? {
      if e.TimeUp? {
        WaitEnds(cfg, clients, z, e.t);
      }
    }
    TickInv(cfg, clients, z);
  }

  /** Some run does end, whatever the numbers. */
  lemma OverloadCanDrain(cfg: Config, clients: nat) returns (ms: seq<Move>, z: Timed)
    requires NeverLate(cfg, clients) && clients >= 1
    ensures Run(cfg, Start(cfg, clients), ms, z) && AllOver(z)
  {
    var end := L.Rounds(clients, cfg.size) * cfg.hold;
    L.MulStep(L.Rounds(clients, cfg.size), cfg.hold);
    var ms1, z1 := ReachTick(cfg, clients, end + cfg.hold);
    var ms2;
    ms2, z := Settle(cfg, clients, z1);
    RunAppend(cfg, Start(cfg, clients), ms1, z1, ms2, z);
    ms := ms1 + ms2;
    forall t | 0 <= t < |z.pool.threads| ensures P.Over(z.pool.threads[t]) {
      SettledPhases(cfg, z, t);
      if Unserved(z.pool.threads[t]) {
        WaitEnds(cfg, clients, z, t);
      }
      if z.pool.threads[t].Holding? {
        StartedInTime(cfg, clients, z, t);
      }
    }
  }

  /** No hold starts after the last round has begun. */
  lemma StartedInTime(cfg: Config, clients: nat, z: Timed, t: nat)
    requires Inv(cfg, clients, z) && Waits(cfg) && t < |z.pool.threads| && z.pool.threads[t].Holding?
    ensures z.mine[t] < |z.log| && z.log[z.mine[t]].start <= LastRound(cfg, clients)
  {
    assert HolderLogged(cfg, z, t);
    CountAtMost(P.ServedKind, z.pool.threads);
    L.StartBound(z.log, cfg.size, cfg.hold, z.mine[t], clients);
  }

  // ---------------------------------------------------------------- when a time limit matters

  /** Some run has a client time out. */
  ghost predicate CanTimeOut(cfg: Config, clients: nat) {
    exists ms, z :: Run(cfg, Start(cfg, clients), ms, z) && AnyTimedOut(z)
  }

  predicate AnyTimedOut(z: Timed) {
    exists t :: 0 <= t < |z.pool.threads| && z.pool.threads[t] == P.TimedOut
  }

  lemma NoneTimesOut(cfg: Config, clients: nat)
    requires NeverLate(cfg, clients)
    ensures !CanTimeOut(cfg, clients)
  {
    forall ms, z | Run(cfg, Start(cfg, clients), ms, z) ensures !AnyTimedOut(z) {
      StartInv(cfg, clients);
      RunInv(cfg, clients, Start(cfg, clients), ms, z);
    }
  }

  /**
   A time limit can fire exactly when some client has to wait and the limit is not above the beginning of the last
   round.
   */
  lemma TimesOutExactly(cfg: Config, clients: nat)
    requires cfg.policy == P.Timeout && cfg.size >= 1 && cfg.hold >= 1
    ensures CanTimeOut(cfg, clients) <==> clients > cfg.size && cfg.limit <= LastRound(cfg, clients)
  {
    if clients > cfg.size && cfg.limit <= LastRound(cfg, clients) {
      var ms, z := TimeOut(cfg, clients);
    } else {
      NoneTimesOut(cfg, clients);
    }
  }

  /** A tick before the limit, somebody is parked; when the clock reaches it, nothing stops the time limit. */
  lemma TimeOut(cfg: Config, clients: nat) returns (ms: seq<Move>, z: Timed)
    requires cfg.policy == P.Timeout && Waits(cfg) && clients > cfg.size && cfg.limit <= LastRound(cfg, clients)
    ensures Run(cfg, Start(cfg, clients), ms, z) && AnyTimedOut(z)
  {
    var z0 := Start(cfg, clients);
    var before := if cfg.limit > 0 then cfg.limit - 1 else 0;
    var ms1, z1 := ReachTick(cfg, clients, before);
    var ms2, z2 := Settle(cfg, clients, z1);
    RunAppend(cfg, z0, ms1, z1, ms2, z2);
    ms := ms1 + ms2;
    var t := SomebodyParked(cfg, clients, z2);
    if cfg.limit > 0 {
      RunSnoc(cfg, z0, ms, z2, Tick);
      ms := ms + [Tick];
      z2 := Next(cfg, z2, Tick);
    }
    RunSnoc(cfg, z0, ms, z2, Act(P.TimeUp(t)));
    z := Next(cfg, z2, Act(P.TimeUp(t)));
    ms := ms + [Act(P.TimeUp(t))];
  }

  /** Before the last round begins somebody is parked, and no connection is idle. */
  lemma SomebodyParked(cfg: Config, clients: nat, z: Timed) returns (t: nat)
    requires Inv(cfg, clients, z) && Waits(cfg) && Settled(cfg, z) && clients > cfg.size
    requires z.now == 0 || z.now < LastRound(cfg, clients)
    ensures t < |z.pool.threads| && z.pool.threads[t] == P.Parked && z.pool.idle == []
  {
    forall k | 0 <= k < |z.log| ensures z.log[k].start <= z.now {
      assert EntryKept(cfg, z, k);
    }
    L.FewStarted(z.log, cfg.size, cfg.hold, z.now, clients);
    if !AnyUnserved(z) {
      P.CountAll(P.ServedKind, z.pool.threads);
      assert false;
    }
    t :| 0 <= t < |z.pool.threads| && Unserved(z.pool.threads[t]);
    SettledPhases(cfg, z, t);
    SettledIsBusy(cfg, clients, z);
  }

  /** 40 clients, 4 connections, 100 ms: 1000 ms without a limit or with 2 s; with 300 ms some time out. */
  lemma ProgramRows(policy: P.Policy, limit: nat)
    requires policy in {P.BlockForever, P.Timeout}
    ensures var cfg := Config(policy, 4, 100, limit);
            policy == P.BlockForever || limit == 2000 ==>
              !CanTimeOut(cfg, 40) &&
              forall ms, z :: Run(cfg, Start(cfg, 40), ms, z) && AllOver(z) ==> L.FinishesAt(z.log, 100, 1000)
    ensures policy == P.Timeout && limit == 300 ==> CanTimeOut(Config(policy, 4, 100, limit), 40)
  {
    var cfg := Config(policy, 4, 100, limit);
    L.RoundsFromBounds(40, 4, 9);
    assert LastRound(cfg, 40) == 900;
    if policy == P.Timeout {
      TimesOutExactly(cfg, 40);
    }
    if NeverLate(cfg, 40) {
      NoneTimesOut(cfg, 40);
      forall ms, z | Run(cfg, Start(cfg, 40), ms, z) && AllOver(z) ensures L.FinishesAt(z.log, 100, 1000) {
        OverloadDrains(cfg, 40, ms, z);
      }
    }
  }
}
