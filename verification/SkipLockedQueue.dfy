/**
 Workers that claim batches of ready jobs with one statement,
 `SELECT ... WHERE state = 'ready' ORDER BY id FOR UPDATE [SKIP LOCKED] LIMIT batch`, mark them
 done in the same transaction, and stop at the first empty claim. The statement scans
 the ids that were ready in its snapshot, row by row: a row held by another
 transaction is passed over or waited for, and a free one is taken if it is still ready.
 */
module SkipLockedQueue {
  import opened Common

  /**
   `Scanning(ahead, got)`: rows still to look at, rows locked so far. `Holding(got)`: the claim
   has returned and the work is being done. `Drained`: left the loop on an empty claim.
   `Stopped`: left it by the deadline or by any other error.
   */
  datatype Phase = Idle | Scanning(ahead: seq<nat>, got: seq<nat>) | Holding(got: seq<nat>) | Drained | Stopped

  datatype Config = Config(skip: bool, batch: nat)

  /** `done` is the committed state of each job; `claimed` the ids workers have reported. */
  datatype State = State(done: seq<bool>, owner: seq<Option<nat>>, phases: seq<Phase>, claimed: seq<nat>)

  datatype Event =
    | Open(w: nat) | Look(w: nat) | Return(w: nat) | Commit(w: nat) | Rollback(w: nat) | Stop(w: nat)

  // ---------------------------------------------------------------- the worker loop

  /** What one turn of the loop meets: the ids its claim returned, or a deadlock error. */
  datatype Turn = Batch(ids: seq<nat>) | Deadlock

  function Ids(t: Turn): seq<nat> { if t.Batch? then t.ids else [] }

  /** What the first n turns report. */
  function Reported(turn: nat -> Turn, n: nat): seq<nat> {
    if n == 0 then [] else Reported(turn, n - 1) + Ids(turn(n - 1))
  }

  /** How many of the first n turns were claims that returned. */
  function Returns(turn: nat -> Turn, n: nat): nat {
    if n == 0 then 0 else Returns(turn, n - 1) + if turn(n - 1).Batch? then 1 else 0
  }

  /**
   The loop ends at the first empty claim, or when `deadline` turns have passed; a deadlock
   error is followed by another turn.
   */
  method WorkerBody(deadline: nat, turn: nat -> Turn)
    returns (claims: nat, batches: nat, empty: nat, claimed: seq<nat>, turns: nat)
    ensures turns <= deadline && claimed == Reported(turn, turns) && claims == |claimed|
    ensures batches == Returns(turn, turns) && empty <= 1
    ensures empty == 1 <==> turns > 0 && turn(turns - 1) == Batch([])
    ensures forall i :: 0 <= i < turns - 1 ==> turn(i) != Batch([])
    ensures empty == 0 ==> turns == deadline
  {
    claims, batches, empty, claimed, turns := 0, 0, 0, [], 0;
    while turns < deadline
      invariant turns <= deadline && claimed == Reported(turn, turns) && claims == |claimed|
      invariant batches == Returns(turn, turns) && empty == 0
      invariant forall i :: 0 <= i < turns ==> turn(i) != Batch([])
    {
      var t := turn(turns);
      turns := turns + 1;
      if t == Deadlock {
        continue;
      }
      batches := batches + 1;
      if t.ids == [] {
        empty := empty + 1;
        return;
      }
      claims := claims + |t.ids|;
      claimed := claimed + t.ids;
    }
  }

  // ---------------------------------------------------------------- the step system

  /** The ids below n that are ready, in ascending order. */
  function ReadyIds(done: seq<bool>, n: nat): (r: seq<nat>)
    requires n <= |done|
    ensures forall i :: 0 <= i < |r| ==> r[i] < n && !done[r[i]]
    ensures forall k :: 0 <= k < n && !done[k] ==> k in r
    ensures forall i, j :: 0 <= i < j < |r| ==> r[i] < r[j]
  {
    if n == 0 then []
    else if done[n - 1] then ReadyIds(done, n - 1)
    else ReadyIds(done, n - 1) + [n - 1]
  }

  function Got(p: Phase): seq<nat> {
    match p
    case Scanning(_, got) => got
    case Holding(got) => got
    case _ => []
  }

  predicate Enabled(c: Config, s: State, e: Event) {
    e.w < |s.phases| &&
    var p := s.phases[e.w];
    match e
    case Open(w) => p == Idle
    case Look(w) =>
      p.Scanning? && p.ahead != [] && |p.got| < c.batch && p.ahead[0] < |s.owner| && p.ahead[0] < |s.done| &&
      (s.owner[p.ahead[0]] == None || c.skip)
    case Return(w) => p.Scanning? && (p.ahead == [] || |p.got| >= c.batch)
    case Commit(w) => p.Holding?
    case Rollback(w) => p.Scanning? || p.Holding?
    case Stop(w) => p in {Idle} || p.Scanning? || p.Holding?
  }

  function MarkDone(done: seq<bool>, ids: seq<nat>): (r: seq<bool>)
    ensures |r| == |done|
    ensures forall i :: 0 <= i < |r| ==> (r[i] <==> done[i] || i in ids)
  {
    seq(|done|, i requires 0 <= i < |done| => done[i] || i in ids)
  }

  function Apply(c: Config, s: State, e: Event): State
    requires Enabled(c, s, e)
  {
    var p := s.phases[e.w];
    match e
    case Open(w) => s.(phases := s.phases[w := Scanning(ReadyIds(s.done, |s.done|), [])])
    case Look(w) =>
      var id := p.ahead[0];
      if s.owner[id] == None && !s.done[id] then
        s.(owner := s.owner[id := Some(w)], phases := s.phases[w := Scanning(p.ahead[1..], p.got + [id])])
      else
        s.(phases := s.phases[w := Scanning(p.ahead[1..], p.got)])
    case Return(w) => s.(phases := s.phases[w := Holding(p.got)])
    case Commit(w) =>
      State(MarkDone(s.done, p.got), ReleaseLocks(s.owner, w),
            s.phases[w := if p.got == [] then Drained else Idle], s.claimed + p.got)
    case Rollback(w) => s.(owner := ReleaseLocks(s.owner, w), phases := s.phases[w := Idle])
    case Stop(w) => s.(owner := ReleaseLocks(s.owner, w), phases := s.phases[w := Stopped])
  }

  ghost predicate Run(c: Config, s: State, es: seq<Event>, s': State)
    decreases |es|
  {
    if es == [] then s == s'
    else Enabled(c, s, es[0]) && Run(c, Apply(c, s, es[0]), es[1..], s')
  }

  function Start(jobs: nat, workers: nat): State {
    State(seq(jobs, _ => false), seq(jobs, _ => None), seq(workers, _ => Idle), [])
  }

  ghost predicate Reachable(c: Config, jobs: nat, workers: nat, s: State) {
    exists es :: Run(c, Start(jobs, workers), es, s)
  }

  // ---------------------------------------------------------------- the invariant

  ghost predicate Ascending(s: seq<nat>) {
    forall i, j :: 0 <= i < j < |s| ==> s[i] < s[j]
  }

  ghost predicate ScanOk(jobs: nat, p: Phase) {
    match p
    case Scanning(ahead, got) =>
      Ascending(got + ahead) && forall i :: 0 <= i < |got + ahead| ==> (got + ahead)[i] < jobs
    case Holding(got) => Ascending(got) && forall i :: 0 <= i < |got| ==> got[i] < jobs
    case _ => true
  }

  ghost predicate OwnersOk(s: State) {
    && (forall i :: 0 <= i < |s.owner| && s.owner[i].Some? ==> s.owner[i].value < |s.phases|)
    && (forall i, w :: 0 <= i < |s.owner| && 0 <= w < |s.phases| ==>
         (s.owner[i] == Some(w) <==> i in Got(s.phases[w])))
  }

  ghost predicate Inv(jobs: nat, workers: nat, s: State) {
    && |s.done| == |s.owner| == jobs && |s.phases| == workers
    && (forall w :: 0 <= w < workers ==> ScanOk(jobs, s.phases[w]))
    && OwnersOk(s)
    && (forall i :: 0 <= i < jobs && s.owner[i].Some? ==> !s.done[i])
    && Distinct(s.claimed)
    && (forall i :: 0 <= i < |s.claimed| ==> s.claimed[i] < jobs)
    && (forall i: nat :: i < jobs ==> (i in s.claimed <==> s.done[i]))
  }

  lemma ScanKept(c: Config, jobs: nat, s: State, e: Event)
    requires |s.done| == jobs && Enabled(c, s, e) && ScanOk(jobs, s.phases[e.w])
    ensures ScanOk(jobs, Apply(c, s, e).phases[e.w])
  {
    if e.Look? {
      var p := s.phases[e.w];
      var all, less := p.got + p.ahead, p.got + p.ahead[1..];
      assert p.got + [p.ahead[0]] + p.ahead[1..] == all;
      forall i, j | 0 <= i < j < |less| ensures less[i] < less[j] {
        var i', j' := if i < |p.got| then i else i + 1, if j < |p.got| then j else j + 1;
        assert less[i] == all[i'] && less[j] == all[j'];
      }
      forall i | 0 <= i < |less| ensures less[i] < jobs {
        assert less[i] == all[if i < |p.got| then i else i + 1];
      }
    } else if e.Open? {
      assert [] + ReadyIds(s.done, jobs) == ReadyIds(s.done, jobs);
    } else if e.Return? {
      var p := s.phases[e.w];
      assert forall i :: 0 <= i < |p.got| ==> p.got[i] == (p.got + p.ahead)[i];
    }
  }

  lemma OwnersKept(c: Config, s: State, e: Event)
    requires OwnersOk(s) && |s.owner| == |s.done| && Enabled(c, s, e)
    ensures OwnersOk(Apply(c, s, e))
  {
    var s' := Apply(c, s, e);
    forall i, w | 0 <= i < |s'.owner| && 0 <= w < |s'.phases|
      ensures s'.owner[i] == Some(w) <==> i in Got(s'.phases[w])
    {
      assert s.owner[i] == Some(w) <==> i in Got(s.phases[w]);
    }
  }

  lemma ClaimedKept(jobs: nat, s: State, w: nat, got: seq<nat>)
    requires w < |s.phases| && s.phases[w] == Holding(got) && Inv(jobs, |s.phases|, s)
    ensures Distinct(s.claimed + got)
    ensures forall i: nat :: i < jobs ==> (i in s.claimed + got <==> MarkDone(s.done, got)[i])
  {
    assert ScanOk(jobs, s.phases[w]);
    var all := s.claimed + got;
    forall i, j | 0 <= i < j < |all| ensures all[i] != all[j] {
      if i < |s.claimed| <= j {
        assert got[j - |s.claimed|] in Got(s.phases[w]);
        assert s.owner[all[j]] == Some(w);
        assert all[i] in s.claimed;
      }
    }
  }

  lemma StepInv(c: Config, jobs: nat, workers: nat, s: State, e: Event)
    requires Inv(jobs, workers, s) && Enabled(c, s, e)
    ensures Inv(jobs, workers, Apply(c, s, e))
  {
    var s' := Apply(c, s, e);
    assert ScanOk(jobs, s.phases[e.w]);
    ScanKept(c, jobs, s, e);
    OwnersKept(c, s, e);
    if e.Commit? {
      var got := s.phases[e.w].got;
      ClaimedKept(jobs, s, e.w, got);
      forall i | 0 <= i < jobs && s'.owner[i].Some? ensures !s'.done[i] {
        assert s.owner[i] == Some(e.w) <==> i in Got(s.phases[e.w]);
      }
    }
  }

  lemma {:induction false} RunInv(c: Config, jobs: nat, workers: nat, s: State, es: seq<Event>, s': State)
    requires Inv(jobs, workers, s) && Run(c, s, es, s')
    ensures Inv(jobs, workers, s')
    decreases |es|
  {
    if es != [] {
      StepInv(c, jobs, workers, s, es[0]);
      RunInv(c, jobs, workers, Apply(c, s, es[0]), es[1..], s');
    }
  }

  lemma ReachableInv(c: Config, jobs: nat, workers: nat, s: State)
    requires Reachable(c, jobs, workers, s)
    ensures Inv(jobs, workers, s)
  {
    var es :| Run(c, Start(jobs, workers), es, s);
    RunInv(c, jobs, workers, Start(jobs, workers), es, s);
  }

  /**
   Over every run, with commits, rollbacks and crashes at any point: no job is reported twice,
   and a job is reported exactly when it is done.
   */
  lemma NoDuplicates(c: Config, jobs: nat, workers: nat, s: State)
    requires Reachable(c, jobs, workers, s)
    ensures Distinct(s.claimed) && |s.done| == jobs && |s.phases| == workers
    ensures forall i: nat :: i < jobs ==> (i in s.claimed <==> s.done[i])
  {
    ReachableInv(c, jobs, workers, s);
  }

  /** A job in a worker's hands is not done and in nobody else's. */
  lemma HeldByOne(c: Config, jobs: nat, workers: nat, s: State, w: nat, x: nat, i: nat)
    requires Reachable(c, jobs, workers, s) && w < |s.phases| && x < |s.phases|
    requires i in Got(s.phases[w]) && i in Got(s.phases[x])
    ensures w == x && i < |s.done| && !s.done[i]
  {
    ReachableInv(c, jobs, workers, s);
    HeldInRange(jobs, s.phases[w], i);
    assert s.owner[i] == Some(w) && s.owner[i] == Some(x);
  }

  lemma HeldInRange(jobs: nat, p: Phase, i: nat)
    requires ScanOk(jobs, p) && i in Got(p)
    ensures i < jobs
  {
    if p.Scanning? {
      var k :| 0 <= k < |p.got| && p.got[k] == i;
      assert (p.got + p.ahead)[k] == i;
    }
  }

  // ---------------------------------------------------------------- what a claim takes

  /** A claim holds at most a batch. */
  lemma {:induction false} ClaimWithinBatch(c: Config, s: State, es: seq<Event>, s': State, w: nat)
    requires Run(c, s, es, s') && w < |s.phases| && |Got(s.phases[w])| <= c.batch
    ensures w < |s'.phases| && |Got(s'.phases[w])| <= c.batch
    decreases |es|
  {
    if es != [] {
      ClaimWithinBatch(c, Apply(c, s, es[0]), es[1..], s', w);
    }
  }

  /** The worker has looked at the ready ids up to some point, taken them all, and stopped only for a full batch. */
  ghost predicate TakesInOrder(c: Config, s: State, ready: seq<nat>, w: nat) {
    w < |s.phases| &&
    match s.phases[w]
    case Idle => true
    case Scanning(ahead, got) => got + ahead == ready && |got| <= c.batch
    case Holding(got) => |got| == Min(c.batch, |ready|) && got == ready[..|got|]
    case _ => false
  }

  /** While nobody else holds rows: a ready id that has not been looked at is free. */
  ghost predicate AloneInTable(s: State, ready: seq<nat>, w: nat) {
    && w < |s.phases| && |s.owner| == |s.done| && ready == ReadyIds(s.done, |s.done|)
    && forall i :: 0 <= i < |s.owner| ==> (s.owner[i] == None || (s.owner[i] == Some(w) && i in Got(s.phases[w])))
  }

  lemma LookTakes(c: Config, s: State, ready: seq<nat>, w: nat)
    requires TakesInOrder(c, s, ready, w) && AloneInTable(s, ready, w) && Enabled(c, s, Look(w))
    ensures TakesInOrder(c, Apply(c, s, Look(w)), ready, w) && AloneInTable(Apply(c, s, Look(w)), ready, w)
  {
    var p := s.phases[w];
    var id := p.ahead[0];
    assert ready[|p.got|] == id;
    forall k | 0 <= k < |p.got| ensures p.got[k] != id {
      assert ready[k] == p.got[k];
    }
    assert s.owner[id] == None && !s.done[id];
    assert p.got + [id] + p.ahead[1..] == ready;
  }

  /** The steps of worker w's claim. */
  predicate OfClaim(e: Event, w: nat) { e.w == w && (e.Open? || e.Look? || e.Return?) }

  lemma LoneStep(c: Config, s: State, e: Event, w: nat, ready: seq<nat>)
    requires Enabled(c, s, e) && OfClaim(e, w) && TakesInOrder(c, s, ready, w) && AloneInTable(s, ready, w)
    ensures TakesInOrder(c, Apply(c, s, e), ready, w) && AloneInTable(Apply(c, s, e), ready, w)
  {
    var p := s.phases[w];
    match e
    case Open(_) => assert [] + ready == ready;
    case Look(_) => LookTakes(c, s, ready, w);
    case Return(_) => assert (p.got + p.ahead)[..|p.got|] == p.got;
  }

  lemma {:induction false} LoneClaim(c: Config, s: State, es: seq<Event>, s': State, w: nat, ready: seq<nat>)
    requires Run(c, s, es, s') && forall i :: 0 <= i < |es| ==> OfClaim(es[i], w)
    requires TakesInOrder(c, s, ready, w) && AloneInTable(s, ready, w)
    ensures TakesInOrder(c, s', ready, w)
    decreases |es|
  {
    if es != [] {
      LoneStep(c, s, es[0], w, ready);
      LoneClaim(c, Apply(c, s, es[0]), es[1..], s', w, ready);
    }
  }

  /**
   A worker alone with the table, from its claim to its return: it gets the first ready ids, in id order, as many as the
   batch allows and there are, with or without SKIP LOCKED.
   */
  lemma LoneClaimTakesFirst(c: Config, s: State, es: seq<Event>, s': State, w: nat)
    requires w < |s.phases| && s.phases[w] == Idle && |s.owner| == |s.done|
    requires forall i :: 0 <= i < |s.owner| ==> s.owner[i] == None
    requires Run(c, s, es, s') && forall i :: 0 <= i < |es| ==> OfClaim(es[i], w)
    requires w < |s'.phases| && s'.phases[w].Holding?
    ensures var ready := ReadyIds(s.done, |s.done|);
            s'.phases[w].got == ready[..Min(c.batch, |ready|)]
  {
    LoneClaim(c, s, es, s', w, ReadyIds(s.done, |s.done|));
  }

  // ---------------------------------------------------------------- nothing is left behind

  /** w will look at job i, or at everything again, before it can leave on an empty claim. */
  predicate Responsible(p: Phase, i: nat) {
    match p
    case Idle => true
    case Scanning(ahead, got) => got != [] || i in ahead
    case Holding(got) => got != []
    case _ => false
  }

  ghost predicate SomeoneResponsible(s: State, i: nat) {
    exists w :: 0 <= w < |s.phases| && Responsible(s.phases[w], i)
  }

  ghost predicate NoneStopped(s: State) {
    forall w :: 0 <= w < |s.phases| ==> s.phases[w] != Stopped
  }

  lemma CoverKept(c: Config, jobs: nat, workers: nat, s: State, e: Event, i: nat)
    requires c.batch >= 1 && Inv(jobs, workers, s) && Enabled(c, s, e) && !e.Stop?
    requires i < jobs && SomeoneResponsible(s, i) && !Apply(c, s, e).done[i]
    ensures SomeoneResponsible(Apply(c, s, e), i)
  {
    var s' := Apply(c, s, e);
    var w :| 0 <= w < |s.phases| && Responsible(s.phases[w], i);
    if w != e.w || Responsible(s'.phases[w], i) {
      assert Responsible(s'.phases[w], i);
    } else {
      // the only way to lose responsibility is to pass over a job that another worker holds
      assert e.Look?;
      var x := s.owner[i].value;
      assert s.owner[i] == Some(x) <==> i in Got(s.phases[x]);
      assert i !in Got(s.phases[w]);
      assert Responsible(s'.phases[x], i);
    }
  }

  lemma {:induction false} CoverRun(c: Config, jobs: nat, workers: nat, s: State, es: seq<Event>, s': State)
    requires c.batch >= 1 && Inv(jobs, workers, s) && Run(c, s, es, s') && NoneStopped(s')
    requires forall i: nat :: i < jobs && !s.done[i] ==> SomeoneResponsible(s, i)
    ensures Inv(jobs, workers, s')
    ensures forall i: nat :: i < jobs && !s'.done[i] ==> SomeoneResponsible(s', i)
    decreases |es|
  {
    if es != [] {
      var next := Apply(c, s, es[0]);
      StepInv(c, jobs, workers, s, es[0]);
      if es[0].Stop? {
        StoppedForever(c, next, es[1..], s', es[0].w);
      }
      forall i: nat | i < jobs && !next.done[i] ensures SomeoneResponsible(next, i) {
        CoverKept(c, jobs, workers, s, es[0], i);
      }
      CoverRun(c, jobs, workers, next, es[1..], s');
    }
  }

  lemma {:induction false} StoppedForever(c: Config, s: State, es: seq<Event>, s': State, w: nat)
    requires Run(c, s, es, s') && w < |s.phases| && s.phases[w] == Stopped
    ensures w < |s'.phases| && s'.phases[w] == Stopped
    decreases |es|
  {
    if es != [] {
      StoppedForever(c, Apply(c, s, es[0]), es[1..], s', w);
    }
  }

  ghost predicate AllDrained(s: State) {
    forall w :: 0 <= w < |s.phases| ==> s.phases[w] == Drained
  }

  /**
   A worker leaves on an empty claim while others may still hold rows, commit or roll back;
   yet once every worker has left that way, no ready job remains.
   */
  lemma DrainedMeansEmpty(c: Config, jobs: nat, workers: nat, s: State)
    requires c.batch >= 1 && workers >= 1 && Reachable(c, jobs, workers, s) && AllDrained(s)
    ensures |s.done| == jobs && forall i :: 0 <= i < jobs ==> s.done[i]
  {
    var es :| Run(c, Start(jobs, workers), es, s);
    var s0 := Start(jobs, workers);
    forall i: nat | i < jobs && !s0.done[i] ensures SomeoneResponsible(s0, i) {
      assert Responsible(s0.phases[0], i);
    }
    CoverRun(c, jobs, workers, s0, es, s);
  }

  /** With LIMIT 0, one worker opens its claim, gets nothing and leaves. */
  lemma DrainOne(skip: bool, s: State, w: nat) returns (es: seq<Event>, s': State)
    requires w < |s.phases| && s.phases[w] == Idle && forall i :: 0 <= i < |s.owner| ==> s.owner[i] == None
    ensures Run(Config(skip, 0), s, es, s') && s' == s.(phases := s.phases[w := Drained])
  {
    var c := Config(skip, 0);
    var s1 := Apply(c, s, Open(w));
    var s2 := Apply(c, s1, Return(w));
    s' := Apply(c, s2, Commit(w));
    assert MarkDone(s.done, []) == s.done && ReleaseLocks(s.owner, w) == s.owner && s.claimed + [] == s.claimed;
    assert s2.phases[w := Drained] == s.phases[w := Drained];
    assert Run(c, s2, [Commit(w)], s') by { assert [Commit(w)][1..] == []; }
    assert Run(c, s1, [Return(w), Commit(w)], s') by { assert [Return(w), Commit(w)][1..] == [Commit(w)]; }
    es := [Open(w), Return(w), Commit(w)];
    assert Run(c, s, es, s') by { assert es[1..] == [Return(w), Commit(w)]; }
  }

  lemma {:induction false} RunAppend(c: Config, s: State, es: seq<Event>, mid: State, fs: seq<Event>, s': State)
    requires Run(c, s, es, mid) && Run(c, mid, fs, s')
    ensures Run(c, s, es + fs, s')
    decreases |es|
  {
    if es == [] {
      assert es + fs == fs;
    } else {
      assert (es + fs)[1..] == es[1..] + fs;
      RunAppend(c, Apply(c, s, es[0]), es[1..], mid, fs, s');
    }
  }

  lemma {:induction false} DrainFrom(skip: bool, s: State, w: nat) returns (es: seq<Event>, s': State)
    requires w <= |s.phases| && forall i :: 0 <= i < |s.owner| ==> s.owner[i] == None
    requires forall x :: 0 <= x < |s.phases| ==> s.phases[x] == if x < w then Drained else Idle
    ensures Run(Config(skip, 0), s, es, s') && AllDrained(s') && s'.done == s.done
    decreases |s.phases| - w
  {
    if w == |s.phases| {
      es, s' := [], s;
    } else {
      var first, next := DrainOne(skip, s, w);
      var more;
      more, s' := DrainFrom(skip, next, w + 1);
      RunAppend(Config(skip, 0), s, first, next, more, s');
      es := first + more;
    }
  }

  /** The batch size must be positive for that: with LIMIT 0 all workers can drain at once and leave every job. */
  lemma EmptyBatchLeavesJobs(skip: bool, jobs: nat, workers: nat) returns (s: State)
    ensures Reachable(Config(skip, 0), jobs, workers, s) && AllDrained(s)
    ensures |s.done| == jobs && forall i :: 0 <= i < jobs ==> !s.done[i]
  {
    var es;
    es, s := DrainFrom(skip, Start(jobs, workers), 0);
  }

  predicate AllDone(s: State) {
    forall i :: 0 <= i < |s.done| ==> s.done[i]
  }

  /** Workers that have all left on empty claims have emptied the queue for sure exactly when the batch is not 0. */
  lemma DrainsExactly(c: Config, jobs: nat, workers: nat)
    requires workers >= 1 && jobs >= 1
    ensures (forall s :: Reachable(c, jobs, workers, s) && AllDrained(s) ==> AllDone(s)) <==> c.batch >= 1
  {
    if c.batch >= 1 {
      forall s | Reachable(c, jobs, workers, s) && AllDrained(s) ensures AllDone(s) {
        DrainedMeansEmpty(c, jobs, workers, s);
      }
    } else {
      var s := EmptyBatchLeavesJobs(c.skip, jobs, workers);
      assert !s.done[0];
    }
  }

  // ---------------------------------------------------------------- no deadlock

  predicate Working(s: State, w: nat) {
    w < |s.phases| && s.phases[w] !in {Drained, Stopped}
  }

  /** A step other than a rollback or a stop. */
  ghost predicate CanStep(c: Config, s: State, w: nat) {
    exists e :: Enabled(c, s, e) && e.w == w && !e.Rollback? && !e.Stop?
  }

  /** The row a blocked scan waits for. */
  function Next(s: State, w: nat): nat
    requires w < |s.phases| && s.phases[w].Scanning? && s.phases[w].ahead != []
  {
    s.phases[w].ahead[0]
  }

  /** A worker with work left steps, or waits for a row another scan or claim holds. */
  lemma StepsOrWaits(c: Config, jobs: nat, workers: nat, s: State, w: nat)
    requires Inv(jobs, workers, s) && Working(s, w)
    ensures CanStep(c, s, w) ||
            (s.phases[w].Scanning? && s.phases[w].ahead != [] && Next(s, w) < jobs && s.owner[Next(s, w)].Some?)
  {
    match s.phases[w]
    case Idle => assert Enabled(c, s, Open(w));
    case Holding(_) => assert Enabled(c, s, Commit(w));
    case Scanning(ahead, got) =>
      if ahead == [] || |got| >= c.batch {
        assert Enabled(c, s, Return(w));
      } else {
        assert ScanOk(jobs, s.phases[w]) && (got + ahead)[|got|] == ahead[0];
        if s.owner[ahead[0]] == None {
          assert Enabled(c, s, Look(w));
        }
      }
  }

  lemma HeldIsBehind(jobs: nat, p: Phase, i: nat)
    requires p.Scanning? && p.ahead != [] && ScanOk(jobs, p) && i in p.got
    ensures i < p.ahead[0]
  {
    var all := p.got + p.ahead;
    var k :| 0 <= k < |p.got| && p.got[k] == i;
    assert all[k] == i && all[|p.got|] == p.ahead[0];
  }

  lemma {:induction false} SomeoneSteps(c: Config, jobs: nat, workers: nat, s: State, w: nat) returns (v: nat)
    requires Inv(jobs, workers, s) && Working(s, w)
    ensures CanStep(c, s, v)
    decreases if s.phases[w].Scanning? && s.phases[w].ahead != [] && Next(s, w) < jobs then jobs - Next(s, w)
              else jobs + 1
  {
    StepsOrWaits(c, jobs, workers, s, w);
    if CanStep(c, s, w) {
      v := w;
    } else {
      var row := Next(s, w);
      var x := s.owner[row].value;
      assert s.owner[row] == Some(x) <==> row in Got(s.phases[x]);
      StepsOrWaits(c, jobs, workers, s, x);
      if CanStep(c, s, x) {
        v := x;
      } else {
        HeldIsBehind(jobs, s.phases[x], row);
        v := SomeoneSteps(c, jobs, workers, s, x);
      }
    }
  }

  /**
   Scanning in id order is a lock order: while any worker has work left, some worker can
   go on, without SKIP LOCKED as well, so these statements alone never deadlock.
   */
  lemma ClaimsNeverDeadlock(c: Config, jobs: nat, workers: nat, s: State, w: nat)
    requires Reachable(c, jobs, workers, s) && Working(s, w)
    ensures exists v :: CanStep(c, s, v)
  {
    ReachableInv(c, jobs, workers, s);
    var v := SomeoneSteps(c, jobs, workers, s, w);
  }

  // ---------------------------------------------------------------- the same steps, in place

  /** The job rows, their lock holders and the workers, overwritten where they are. */
  class Jobs {
    const c: Config
    const done: array<bool>
    const owner: array<Option<nat>>
    const phases: array<Phase>
    var claimed: seq<nat>

    ghost function View(): State
      reads this, done, owner, phases
    {
      State(done[..], owner[..], phases[..], claimed)
    }

    constructor (c: Config, jobs: nat, workers: nat)
      ensures this.c == c && View() == Start(jobs, workers)
      ensures fresh(done) && fresh(owner) && fresh(phases)
    {
      this.c := c;
      done := new bool[jobs](_ => false);
      owner := new Option<nat>[jobs](_ => None);
      phases := new Phase[workers](_ => Idle);
      claimed := [];
      new;
      var start := Start(jobs, workers);
      assert done[..] == start.done && owner[..] == start.owner && phases[..] == start.phases;
    }

    /** The UPDATE that marks a batch done. */
    method MarkRows(ids: seq<nat>)
      modifies done
      ensures done[..] == MarkDone(old(done[..]), ids)
    {
      for i := 0 to |ids|
        invariant forall j :: 0 <= j < done.Length ==> (done[j] <==> old(done[j]) || j in ids[..i])
      {
        if ids[i] < done.Length {
          done[ids[i]] := true;
        }
      }
      assert ids[..|ids|] == ids;
      assert done[..] == MarkDone(old(done[..]), ids);
    }

    method LookAt(w: nat)
      requires Enabled(c, View(), Look(w))
      modifies owner, phases
      ensures View() == Apply(c, old(View()), Look(w))
    {
      var p := phases[w];
      var id := p.ahead[0];
      if owner[id] == None && !done[id] {
        owner[id] := Some(w);
        phases[w] := Scanning(p.ahead[1..], p.got + [id]);
      } else {
        phases[w] := Scanning(p.ahead[1..], p.got);
      }
    }

    method Do(e: Event)
      requires Enabled(c, View(), e)
      modifies this, done, owner, phases
      ensures View() == Apply(c, old(View()), e)
    {
      match e
      case Open(w) => phases[w] := Scanning(ReadyIds(done[..], done.Length), []);
      case Look(w) => LookAt(w);
      case Return(w) => phases[w] := Holding(phases[w].got);
      case Commit(w) =>
        var got := phases[w].got;
        MarkRows(got);
        ReleaseInPlace(owner, w);
        phases[w] := if got == [] then Drained else Idle;
        claimed := claimed + got;
      case Rollback(w) =>
        ReleaseInPlace(owner, w);
        phases[w] := Idle;
      case Stop(w) =>
        ReleaseInPlace(owner, w);
        phases[w] := Stopped;
    }

    /** Any schedule of steps, executed on the rows, is a run of the step system. */
    method Execute(es: seq<Event>, ghost final: State)
      requires Run(c, View(), es, final)
      modifies this, done, owner, phases
      ensures View() == final
    {
      for i := 0 to |es|
        invariant Run(c, View(), es[i..], final)
      {
        assert es[i..][0] == es[i] && es[i..][1..] == es[i + 1..];
        Do(es[i]);
      }
    }
  }
}
