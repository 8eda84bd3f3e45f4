/**
 Concurrent withdrawals of a fixed amount from one account row, written as a
 read-modify-write or as one guarded UPDATE, at read committed or repeatable read, with
 or without FOR UPDATE. The server's part: an UPDATE waits for the row's lock holder; at
 read committed it then proceeds on the latest committed version, re-checking its own WHERE
 clause; at repeatable read it fails with 40001 if the row changed since the snapshot.
 */
module LostUpdate {
  import opened Common
  import R = Race

  const AMOUNT: int := 100
  const MAX_RETRIES: nat := 8

  datatype Variant = Variant(atomic: bool, repeatable: bool, forUpdate: bool)

  /** The five variants of the program. */
  const VARIANTS: seq<Variant> := [
    Variant(false, false, false),
    Variant(true, false, false),
    Variant(false, true, false),
    Variant(true, true, false),
    Variant(false, false, true)]

  /** Read-modify-write at read committed without a lock: the variant that loses updates. */
  const PLAIN: Variant := VARIANTS[0]

  /**
   `Seen(balance, version)`: the statement's snapshot of the row. `Wrote(value)`: an
   uncommitted new version, under the row lock. `Declining`: the UPDATE matched no row.
   */
  datatype Txn = Idle | Seen(balance: int, version: nat) | Wrote(value: int) | Declining

  datatype Tally = Tally(ok: nat, declined: nat, aborts: nat, retries: nat, gaveUp: nat)

  datatype Worker = Worker(left: nat, attempt: nat, txn: Txn, tally: Tally)

  /** The row: its committed value, how many times it was committed, and who holds its lock. */
  datatype State = State(committed: int, version: nat, owner: Option<nat>, workers: seq<Worker>)

  datatype Outcome = Ok | Declined | Failed

  datatype Event = See(w: nat) | Write(w: nat) | Decline(w: nat) | Commit(w: nat) | Fail(w: nat)

  // ---------------------------------------------------------------- the worker loop

  /** What the end of one attempt does to the counters and to the worker's place in its loops. */
  function AfterAttempt(k: Worker, o: Outcome): Worker {
    if k.left == 0 then k
    else
      var t := k.tally;
      match o
      case Ok => Worker(k.left - 1, 0, Idle, t.(ok := t.ok + 1))
      case Declined => Worker(k.left - 1, 0, Idle, t.(declined := t.declined + 1))
      case Failed =>
        if k.attempt == MAX_RETRIES then
          Worker(k.left - 1, 0, Idle, t.(aborts := t.aborts + 1, gaveUp := t.gaveUp + 1))
        else
          Worker(k.left, k.attempt + 1, Idle, t.(aborts := t.aborts + 1, retries := t.retries + 1))
  }

  /** What a worker has come to after these attempts, newest first. */
  function Replay(k: Worker, outcomes: seq<Outcome>): Worker {
    if outcomes == [] then k else AfterAttempt(Replay(k, outcomes[1..]), outcomes[0])
  }

  function CountOf(trace: seq<Outcome>, o: Outcome): nat {
    if trace == [] then 0 else CountOf(trace[1..], o) + if trace[0] == o then 1 else 0
  }

  /** How many attempts at request r fail, from the i-th on, before one does not; at most all nine. */
  function Failures(outcome: (nat, nat) -> Outcome, r: nat, i: nat): (n: nat)
    requires i <= MAX_RETRIES + 1
    ensures n <= MAX_RETRIES + 1 - i
    decreases MAX_RETRIES + 1 - i
  {
    if i > MAX_RETRIES || outcome(r, i) != Failed then 0 else 1 + Failures(outcome, r, i + 1)
  }

  /** What request r adds to the counters: it ends at its first attempt that does not fail, or is given up. */
  function Told(t: Tally, outcome: (nat, nat) -> Outcome, r: nat): Tally {
    var n := Failures(outcome, r, 0);
    if n > MAX_RETRIES then
      Tally(t.ok, t.declined, t.aborts + MAX_RETRIES + 1, t.retries + MAX_RETRIES, t.gaveUp + 1)
    else
      Tally(t.ok + if outcome(r, n) == Ok then 1 else 0, t.declined + if outcome(r, n) == Declined then 1 else 0,
            t.aborts + n, t.retries + n, t.gaveUp)
  }

  lemma {:induction false} ToldSums(outcome: (nat, nat) -> Outcome, n: nat)
    ensures var t := AllTold(outcome, n);
            t.ok + t.declined + t.gaveUp == n && t.aborts == t.retries + t.gaveUp
  {
    if n > 0 {
      ToldSums(outcome, n - 1);
    }
  }

  function AllTold(outcome: (nat, nat) -> Outcome, n: nat): Tally {
    if n == 0 then Tally(0, 0, 0, 0, 0) else Told(AllTold(outcome, n - 1), outcome, n - 1)
  }

  /** ks[i] is the worker, with requests left, one attempt after ks[i + 1]; newest first. */
  ghost predicate StageAt(ks: seq<Worker>, trace: seq<Outcome>, i: nat)
    requires i < |trace| < |ks|
  {
    ks[i + 1].left > 0 && ks[i] == AfterAttempt(ks[i + 1], trace[i])
  }

  ghost predicate Stages(start: Worker, ks: seq<Worker>, trace: seq<Outcome>) {
    |ks| == |trace| + 1 && ks[|trace|] == start && forall i: nat :: i < |trace| ==> StageAt(ks, trace, i)
  }

  lemma {:induction false} StagesReplay(start: Worker, ks: seq<Worker>, trace: seq<Outcome>)
    requires Stages(start, ks, trace)
    ensures Replay(start, trace) == ks[0]
    ensures ks[0].tally.ok == start.tally.ok + CountOf(trace, Ok)
    ensures ks[0].tally.declined == start.tally.declined + CountOf(trace, Declined)
    ensures ks[0].tally.aborts == start.tally.aborts + CountOf(trace, Failed)
  {
    if trace != [] {
      assert StageAt(ks, trace, 0);
      forall i: nat | i < |trace| - 1 ensures StageAt(ks[1..], trace[1..], i) {
        assert StageAt(ks, trace, i + 1);
      }
      StagesReplay(start, ks[1..], trace[1..]);
    }
  }

  lemma OneMoreStage(start: Worker, ks: seq<Worker>, trace: seq<Outcome>, o: Outcome)
    requires Stages(start, ks, trace) && ks[0].left > 0
    ensures Stages(start, [AfterAttempt(ks[0], o)] + ks, [o] + trace)
  {
    var more, longer := [AfterAttempt(ks[0], o)] + ks, [o] + trace;
    forall i: nat | i < |longer| ensures StageAt(more, longer, i) {
      if i > 0 {
        assert StageAt(ks, trace, i - 1);
      }
    }
  }

  /** One request: up to nine attempts, the first that does not fail being the last. */
  method OneRequest(r: nat, outcome: (nat, nat) -> Outcome, tally0: Tally, trace0: seq<Outcome>,
                    ghost start: Worker, ghost ks0: seq<Worker>)
    returns (tally: Tally, trace: seq<Outcome>, ghost ks: seq<Worker>)
    requires Stages(start, ks0, trace0)
    requires ks0[0].left > 0 && ks0[0] == Worker(ks0[0].left, 0, Idle, tally0)
    ensures Stages(start, ks, trace)
    ensures ks[0] == Worker(ks0[0].left - 1, 0, Idle, tally) && tally == Told(tally0, outcome, r)
    ensures |trace| - |trace0| == 1 + tally.retries - tally0.retries
  {
    tally, trace, ks := tally0, trace0, ks0;
    var attempt := 0;
    while true
      invariant attempt <= MAX_RETRIES && attempt + Failures(outcome, r, attempt) == Failures(outcome, r, 0)
      invariant Stages(start, ks, trace)
      invariant ks[0] == Worker(ks0[0].left, attempt, Idle, tally) && |trace| == |trace0| + attempt
      invariant tally == tally0.(aborts := tally0.aborts + attempt, retries := tally0.retries + attempt)
      decreases MAX_RETRIES - attempt
    {
      var o := outcome(r, attempt);
      OneMoreStage(start, ks, trace, o);
      trace, ks := [o] + trace, [AfterAttempt(ks[0], o)] + ks;
      match o
      case Ok => tally := tally.(ok := tally.ok + 1); break;
      case Declined => tally := tally.(declined := tally.declined + 1); break;
      case Failed =>
        tally := tally.(aborts := tally.aborts + 1);
        if attempt == MAX_RETRIES {
          tally := tally.(gaveUp := tally.gaveUp + 1);
          break;
        }
        tally := tally.(retries := tally.retries + 1);
        attempt := attempt + 1;
    }
  }

  /** The nested loops of one worker; `outcome(r, i)` is what attempt i of request r meets. */
  method WorkerBody(perWorker: nat, outcome: (nat, nat) -> Outcome) returns (tally: Tally, trace: seq<Outcome>)
    ensures Replay(Worker(perWorker, 0, Idle, Tally(0, 0, 0, 0, 0)), trace) == Worker(0, 0, Idle, tally)
    ensures tally.ok + tally.declined + tally.gaveUp == perWorker
    ensures tally.aborts == tally.retries + tally.gaveUp
    ensures |trace| == perWorker + tally.retries
    ensures tally == AllTold(outcome, perWorker)
    ensures tally.ok == CountOf(trace, Ok) && tally.declined == CountOf(trace, Declined)
    ensures tally.aborts == CountOf(trace, Failed)
  {
    ghost var start := Worker(perWorker, 0, Idle, Tally(0, 0, 0, 0, 0));
    ghost var ks := [start];
    tally, trace := Tally(0, 0, 0, 0, 0), [];
    for r := 0 to perWorker
      invariant Stages(start, ks, trace) && ks[0] == Worker(perWorker - r, 0, Idle, tally)
      invariant tally == AllTold(outcome, r)
      invariant |trace| == r + tally.retries
    {
      ghost var before := tally;
      tally, trace, ks := OneRequest(r, outcome, tally, trace, start, ks);
      assert AllTold(outcome, r + 1) == Told(before, outcome, r);
    }
    StagesReplay(start, ks, trace);
    ToldSums(outcome, perWorker);
  }

  // ---------------------------------------------------------------- the step system

  predicate Enabled(v: Variant, s: State, e: Event) {
    e.w < |s.workers| && s.workers[e.w].left > 0 &&
    var txn := s.workers[e.w].txn;
    match e
    case See(w) => txn == Idle && (v.forUpdate ==> s.owner == None)
    case Write(w) =>
      txn.Seen? && txn.balance >= AMOUNT && s.owner in {None, Some(w)} &&
      (v.repeatable ==> txn.version == s.version)
    case Decline(w) => txn == Declining || (txn.Seen? && txn.balance < AMOUNT)
    case Commit(w) => txn.Wrote?
    case Fail(w) => v.repeatable && txn.Seen? && txn.balance >= AMOUNT && txn.version != s.version
  }

  function Unlock(s: State, w: nat): Option<nat> { if s.owner == Some(w) then None else s.owner }

  function Apply(v: Variant, s: State, e: Event): State
    requires Enabled(v, s, e)
  {
    var k := s.workers[e.w];
    match e
    case See(w) =>
      s.(owner := if v.forUpdate then Some(w) else s.owner,
         workers := s.workers[w := k.(txn := Seen(s.committed, s.version))])
    case Write(w) =>
      if v.atomic && s.committed < AMOUNT then s.(workers := s.workers[w := k.(txn := Declining)])
      else
        var value := if v.atomic then s.committed - AMOUNT else k.txn.balance - AMOUNT;
        s.(owner := Some(w), workers := s.workers[w := k.(txn := Wrote(value))])
    case Decline(w) =>
      s.(owner := Unlock(s, w), workers := s.workers[w := AfterAttempt(k, Declined)])
    case Commit(w) =>
      State(k.txn.value, s.version + 1, Unlock(s, w), s.workers[w := AfterAttempt(k, Ok)])
    case Fail(w) =>
      s.(owner := Unlock(s, w), workers := s.workers[w := AfterAttempt(k, Failed)])
  }

  ghost predicate Run(v: Variant, s: State, es: seq<Event>, s': State)
    decreases |es|
  {
    if es == [] then s == s'
    else Enabled(v, s, es[0]) && Run(v, Apply(v, s, es[0]), es[1..], s')
  }

  function Start(balance: int, workers: nat, perWorker: nat): State {
    State(balance, 0, None, seq(workers, _ => Worker(perWorker, 0, Idle, Tally(0, 0, 0, 0, 0))))
  }

  ghost predicate Reachable(v: Variant, balance: int, workers: nat, perWorker: nat, s: State) {
    exists es :: Run(v, Start(balance, workers, perWorker), es, s)
  }

  predicate Finished(s: State) {
    forall w :: 0 <= w < |s.workers| ==> s.workers[w].left == 0
  }

  function Oks(workers: seq<Worker>): seq<int> {
    seq(|workers|, i requires 0 <= i < |workers| => workers[i].tally.ok)
  }

  function TotalOk(s: State): int { Sum(Oks(s.workers)) }

  /** The program's `lost` column. */
  function Lost(balance: int, s: State): int {
    (s.committed - (balance - TotalOk(s) * AMOUNT)) / AMOUNT
  }

  lemma OkUpdate(workers: seq<Worker>, w: nat, k: Worker)
    requires w < |workers|
    ensures Sum(Oks(workers[w := k])) == Sum(Oks(workers)) - workers[w].tally.ok + k.tally.ok
  {
    assert Oks(workers[w := k]) == Oks(workers)[w := k.tally.ok];
    SumUpdate(Oks(workers), w, k.tally.ok);
  }

  // ---------------------------------------------------------------- bookkeeping

  ghost predicate Booked(perWorker: nat, k: Worker) {
    && k.tally.ok + k.tally.declined + k.tally.gaveUp + k.left == perWorker
    && k.tally.aborts == k.tally.retries + k.tally.gaveUp
    && k.attempt <= MAX_RETRIES
  }

  lemma {:induction false} RunBooked(v: Variant, perWorker: nat, s: State, es: seq<Event>, s': State)
    requires Run(v, s, es, s')
    requires forall w :: 0 <= w < |s.workers| ==> Booked(perWorker, s.workers[w])
    ensures |s'.workers| == |s.workers|
    ensures forall w :: 0 <= w < |s'.workers| ==> Booked(perWorker, s'.workers[w])
    ensures forall w :: 0 <= w < |s'.workers| && !v.repeatable ==>
              s'.workers[w].tally.aborts == s.workers[w].tally.aborts
    decreases |es|
  {
    if es != [] {
      RunBooked(v, perWorker, Apply(v, s, es[0]), es[1..], s');
    }
  }

  /** In every variant: requests are all accounted for, and every abort is a retry or a surrender. */
  lemma EveryRequestAccounted(v: Variant, balance: int, workers: nat, perWorker: nat, s: State, w: nat)
    requires Reachable(v, balance, workers, perWorker, s) && w < workers
    ensures |s.workers| == workers && Booked(perWorker, s.workers[w])
    ensures !v.repeatable ==> s.workers[w].tally.aborts == 0
  {
    var es :| Run(v, Start(balance, workers, perWorker), es, s);
    RunBooked(v, perWorker, Start(balance, workers, perWorker), es, s);
  }

  function Declines(workers: seq<Worker>): seq<int> {
    seq(|workers|, i requires 0 <= i < |workers| => workers[i].tally.declined)
  }

  function Aborts(workers: seq<Worker>): seq<int> {
    seq(|workers|, i requires 0 <= i < |workers| => workers[i].tally.aborts)
  }

  function Commits(es: seq<Event>): nat { if es == [] then 0 else Commits(es[1..]) + if es[0].Commit? then 1 else 0 }

  function DeclineEvents(es: seq<Event>): nat {
    if es == [] then 0 else DeclineEvents(es[1..]) + if es[0].Decline? then 1 else 0
  }

  function Fails(es: seq<Event>): nat { if es == [] then 0 else Fails(es[1..]) + if es[0].Fail? then 1 else 0 }

  lemma CountersStep(v: Variant, s: State, e: Event)
    requires Enabled(v, s, e)
    ensures var s' := Apply(v, s, e);
            && Sum(Oks(s'.workers)) == Sum(Oks(s.workers)) + (if e.Commit? then 1 else 0)
            && Sum(Declines(s'.workers)) == Sum(Declines(s.workers)) + (if e.Decline? then 1 else 0)
            && Sum(Aborts(s'.workers)) == Sum(Aborts(s.workers)) + (if e.Fail? then 1 else 0)
  {
    var s' := Apply(v, s, e);
    var t := s'.workers[e.w].tally;
    assert Oks(s'.workers) == Oks(s.workers)[e.w := t.ok];
    assert Declines(s'.workers) == Declines(s.workers)[e.w := t.declined];
    assert Aborts(s'.workers) == Aborts(s.workers)[e.w := t.aborts];
    SumUpdate(Oks(s.workers), e.w, t.ok);
    SumUpdate(Declines(s.workers), e.w, t.declined);
    SumUpdate(Aborts(s.workers), e.w, t.aborts);
  }

  lemma {:induction false} CountersRun(v: Variant, s: State, es: seq<Event>, s': State)
    requires Run(v, s, es, s')
    ensures Sum(Oks(s'.workers)) == Sum(Oks(s.workers)) + Commits(es)
    ensures Sum(Declines(s'.workers)) == Sum(Declines(s.workers)) + DeclineEvents(es)
    ensures Sum(Aborts(s'.workers)) == Sum(Aborts(s.workers)) + Fails(es)
    decreases |es|
  {
    if es != [] {
      CountersStep(v, s, es[0]);
      CountersRun(v, Apply(v, s, es[0]), es[1..], s');
    }
  }

  /** In every run of every variant the workers count exactly the commits, the declined requests and the aborts. */
  lemma CountersCount(v: Variant, balance: int, workers: nat, perWorker: nat, es: seq<Event>, s: State)
    requires Run(v, Start(balance, workers, perWorker), es, s)
    ensures TotalOk(s) == Commits(es) && Sum(Declines(s.workers)) == DeclineEvents(es)
    ensures Sum(Aborts(s.workers)) == Fails(es)
  {
    var s0 := Start(balance, workers, perWorker);
    SumBounds(Oks(s0.workers), 0, 0);
    SumBounds(Declines(s0.workers), 0, 0);
    SumBounds(Aborts(s0.workers), 0, 0);
    CountersRun(v, s0, es, s);
  }

  // ---------------------------------------------------------------- the exact variants

  ghost predicate ExactTxn(v: Variant, s: State, w: nat)
    requires w < |s.workers|
  {
    match s.workers[w].txn
    case Idle => s.owner != Some(w)
    case Seen(b, ver) =>
      && ver <= s.version && (ver == s.version ==> b == s.committed) && b >= s.committed
      && (v.forUpdate ==> s.owner == Some(w) && b == s.committed)
      && (!v.forUpdate ==> s.owner != Some(w))
    case Wrote(x) => s.owner == Some(w) && x == s.committed - AMOUNT && s.committed >= AMOUNT
    case Declining => s.owner != Some(w) && s.committed < AMOUNT
  }

  ghost predicate ExactInv(v: Variant, balance: int, s: State) {
    && s.committed == balance - TotalOk(s) * AMOUNT
    && (balance >= 0 ==> s.committed >= 0)
    && (s.owner.Some? ==> s.owner.value < |s.workers|)
    && forall w :: 0 <= w < |s.workers| ==> ExactTxn(v, s, w)
  }

  lemma ExactStep(v: Variant, balance: int, s: State, e: Event)
    requires v in VARIANTS && v != PLAIN && ExactInv(v, balance, s) && Enabled(v, s, e)
    ensures ExactInv(v, balance, Apply(v, s, e))
  {
    var s' := Apply(v, s, e);
    OkUpdate(s.workers, e.w, s'.workers[e.w]);
    assert ExactTxn(v, s, e.w);
    forall w | 0 <= w < |s.workers| ensures ExactTxn(v, s', w) {
      assert ExactTxn(v, s, w);
    }
  }

  lemma {:induction false} ExactRun(v: Variant, balance: int, s: State, es: seq<Event>, s': State)
    requires v in VARIANTS && v != PLAIN && ExactInv(v, balance, s) && Run(v, s, es, s')
    ensures ExactInv(v, balance, s')
    decreases |es|
  {
    if es != [] {
      ExactStep(v, balance, s, es[0]);
      ExactRun(v, balance, Apply(v, s, es[0]), es[1..], s');
    }
  }

  /**
   In every interleaving of the four variants other than the plain read-modify-write, each
   confirmed withdrawal is in the balance exactly once, and the account never goes negative.
   */
  lemma NothingLost(v: Variant, balance: int, workers: nat, perWorker: nat, s: State)
    requires v in VARIANTS && v != PLAIN && Reachable(v, balance, workers, perWorker, s)
    ensures s.committed == balance - TotalOk(s) * AMOUNT && Lost(balance, s) == 0
    ensures balance >= 0 ==> s.committed >= 0
  {
    var s0 := Start(balance, workers, perWorker);
    var es :| Run(v, s0, es, s);
    SumBounds(Oks(s0.workers), 0, 0);
    ExactRun(v, balance, s0, es, s);
  }

  /** In those four variants a request is declined only when the account no longer covers it. */
  lemma DeclinesOnlyWhenShort(v: Variant, balance: int, workers: nat, perWorker: nat, s: State, w: nat)
    requires v in VARIANTS && v != PLAIN && Reachable(v, balance, workers, perWorker, s) && Enabled(v, s, Decline(w))
    ensures s.committed < AMOUNT
  {
    var s0 := Start(balance, workers, perWorker);
    var es :| Run(v, s0, es, s);
    SumBounds(Oks(s0.workers), 0, 0);
    ExactRun(v, balance, s0, es, s);
    assert ExactTxn(v, s, w);
  }

  // ---------------------------------------------------------------- the plain variant

  /** x is the start balance after some number of withdrawals between lo and hi. */
  ghost predicate After(balance: int, x: int, lo: int, hi: int) {
    exists m :: lo <= m <= hi && x == balance - AMOUNT * m
  }

  ghost predicate PlainInv(balance: int, s: State) {
    var ok := TotalOk(s);
    && ok >= 0
    && After(balance, s.committed, if ok >= 1 then 1 else 0, ok)
    && forall w :: 0 <= w < |s.workers| ==>
         match s.workers[w].txn
         case Seen(b, _) => After(balance, b, 0, ok)
         case Wrote(x) => After(balance, x, 1, ok + 1)
         case _ => true
  }

  lemma PlainStep(balance: int, s: State, e: Event)
    requires PlainInv(balance, s) && Enabled(PLAIN, s, e)
    ensures PlainInv(balance, Apply(PLAIN, s, e))
  {
    var s' := Apply(PLAIN, s, e);
    OkUpdate(s.workers, e.w, s'.workers[e.w]);
    match e
    case Write(w) =>
      var m :| 0 <= m <= TotalOk(s) && s.workers[w].txn.balance == balance - AMOUNT * m;
      assert s'.workers[w].txn.value == balance - AMOUNT * (m + 1);
    case _ =>
  }

  lemma {:induction false} PlainRun(balance: int, s: State, es: seq<Event>, s': State)
    requires PlainInv(balance, s) && Run(PLAIN, s, es, s')
    ensures PlainInv(balance, s')
    decreases |es|
  {
    if es != [] {
      PlainStep(balance, s, es[0]);
      PlainRun(balance, Apply(PLAIN, s, es[0]), es[1..], s');
    }
  }

  lemma {:induction false} RunAppend(v: Variant, s: State, es: seq<Event>, mid: State, fs: seq<Event>, s': State)
    requires Run(v, s, es, mid) && Run(v, mid, fs, s')
    ensures Run(v, s, es + fs, s')
    decreases |es|
  {
    if es == [] {
      assert es + fs == fs;
    } else {
      assert (es + fs)[1..] == es[1..] + fs;
      RunAppend(v, Apply(v, s, es[0]), es[1..], mid, fs, s');
    }
  }

  lemma RunSnoc(v: Variant, s: State, es: seq<Event>, mid: State, e: Event)
    requires Run(v, s, es, mid) && Enabled(v, mid, e)
    ensures Run(v, s, es + [e], Apply(v, mid, e))
  {
    assert [e][1..] == [];
    RunAppend(v, s, es, mid, [e], Apply(v, mid, e));
  }

  /** At every moment of every run: a confirmed withdrawal is never counted twice, and one always survives. */
  lemma PlainBound(balance: int, workers: nat, perWorker: nat, s: State)
    requires Reachable(PLAIN, balance, workers, perWorker, s)
    ensures 0 <= Lost(balance, s) <= if TotalOk(s) >= 1 then TotalOk(s) - 1 else 0
  {
    var s0 := Start(balance, workers, perWorker);
    var es :| Run(PLAIN, s0, es, s);
    SumBounds(Oks(s0.workers), 0, 0);
    assert balance == balance - AMOUNT * 0;
    PlainRun(balance, s0, es, s);
    var m :| 0 <= m <= TotalOk(s) && (TotalOk(s) >= 1 ==> m >= 1) && s.committed == balance - AMOUNT * m;
    assert s.committed - (balance - TotalOk(s) * AMOUNT) == AMOUNT * (TotalOk(s) - m);
  }

  // ---------------------------------------------------------------- the plain variant as unlocked increments

  /**
   A worker is a thread that adds 1 without a lock: reading the balance is its load, committing is its store, and the
   number it holds is how many amounts the balance it read lies below the start.
   */
  ghost predicate Match(balance: int, perWorker: nat, k: Worker, t: R.Thread) {
    && k.left + t.done == perWorker && k.tally.ok == t.done
    && match k.txn
       case Idle => t.phase == R.Ready
       case Seen(b, _) => t.phase.Loaded? && b == balance - AMOUNT * t.phase.v
       case Wrote(x) => t.phase.Loaded? && x == balance - AMOUNT * (t.phase.v + 1)
       case Declining => false
  }

  ghost predicate Sim(balance: int, perWorker: nat, s: State, r: R.State) {
    && |s.workers| == |r.threads| && r.holder == None
    && s.committed == balance - AMOUNT * r.counter
    && R.UnlockedInv(perWorker, r)
    && forall w :: 0 <= w < |s.workers| ==> Match(balance, perWorker, s.workers[w], r.threads[w])
  }

  /** While a thread has increments left, the total is below n * k; so whoever read the balance can pay. */
  lemma CanPay(perWorker: nat, r: R.State, t: nat)
    requires R.UnlockedInv(perWorker, r) && t < |r.threads| && r.threads[t].phase.Loaded?
    ensures r.threads[t].done < perWorker && r.threads[t].phase.v + 1 <= |r.threads| * perWorker
  {
    var dones := R.Dones(r.threads);
    SumUpdate(dones, t, perWorker);
    SumBounds(dones[t := perWorker], 0, perWorker);
  }

  lemma SimStart(balance: int, workers: nat, perWorker: nat)
    requires workers >= 1
    ensures Sim(balance, perWorker, Start(balance, workers, perWorker), R.Start(workers))
  {
    assert R.Start(workers).threads[0].done == 0;
    SumBounds(R.Dones(R.Start(workers).threads), 0, 0);
  }

  /** Every step of a worker is a step of its thread, or none. */
  lemma SimStep(balance: int, perWorker: nat, s: State, e: Event, r: R.State) returns (fs: seq<R.Event>, r': R.State)
    requires Sim(balance, perWorker, s, r) && Enabled(PLAIN, s, e) && balance >= AMOUNT * (|s.workers| * perWorker)
    ensures R.Run(false, perWorker, r, fs, r') && Sim(balance, perWorker, Apply(PLAIN, s, e), r')
  {
    var w := e.w;
    assert Match(balance, perWorker, s.workers[w], r.threads[w]);
    if r.threads[w].phase.Loaded? {
      CanPay(perWorker, r, w);
    }
    if e.Write? {
      fs, r' := [], r;
    } else {
      var f := if e.See? then R.Load(w) else R.Store(w);
      r' := R.Apply(false, perWorker, r, f);
      R.UnlockedStep(perWorker, r, f);
      R.RunSnoc(false, perWorker, r, [], r, f);
      fs := [] + [f];
    }
  }

  lemma {:induction false} SimRun(balance: int, perWorker: nat, s: State, es: seq<Event>, s': State, r: R.State)
    returns (fs: seq<R.Event>, r': R.State)
    requires Sim(balance, perWorker, s, r) && Run(PLAIN, s, es, s')
    requires balance >= AMOUNT * (|s.workers| * perWorker)
    ensures R.Run(false, perWorker, r, fs, r') && Sim(balance, perWorker, s', r')
    ensures |s'.workers| == |s.workers|
    decreases |es|
  {
    if es == [] {
      fs, r' := [], r;
    } else {
      var first, next := SimStep(balance, perWorker, s, es[0], r);
      var more;
      more, r' := SimRun(balance, perWorker, Apply(PLAIN, s, es[0]), es[1..], s', next);
      R.RunAppend(false, perWorker, r, first, next, more, r');
      fs := first + more;
    }
  }

  /** Every step of a thread is one or two steps of its worker, which holds the row's lock only in between. */
  lemma RealStep(balance: int, perWorker: nat, s: State, r: R.State, f: R.Event) returns (es: seq<Event>, s': State)
    requires Sim(balance, perWorker, s, r) && R.Enabled(false, perWorker, r, f) && Unheld(s)
    requires balance >= AMOUNT * (|s.workers| * perWorker)
    ensures Run(PLAIN, s, es, s') && Sim(balance, perWorker, s', R.Apply(false, perWorker, r, f)) && Unheld(s')
    ensures |s'.workers| == |s.workers|
  {
    var w := f.t;
    assert Match(balance, perWorker, s.workers[w], r.threads[w]);
    R.UnlockedStep(perWorker, r, f);
    if f.Load? {
      s' := Apply(PLAIN, s, See(w));
      RunSnoc(PLAIN, s, [], s, See(w));
      es := [] + [See(w)];
    } else {
      CanPay(perWorker, r, w);
      var s1 := Apply(PLAIN, s, Write(w));
      s' := Apply(PLAIN, s1, Commit(w));
      RunSnoc(PLAIN, s, [], s, Write(w));
      RunSnoc(PLAIN, s, [] + [Write(w)], s1, Commit(w));
      es := [] + [Write(w)] + [Commit(w)];
    }
  }

  /** Nobody is between its UPDATE and its COMMIT. */
  ghost predicate Unheld(s: State) {
    s.owner == None && forall w :: 0 <= w < |s.workers| ==> !s.workers[w].txn.Wrote?
  }

  lemma {:induction false} RealRun(balance: int, perWorker: nat, s: State, r: R.State, fs: seq<R.Event>, r': R.State)
    returns (es: seq<Event>, s': State)
    requires Sim(balance, perWorker, s, r) && R.Run(false, perWorker, r, fs, r') && Unheld(s)
    requires balance >= AMOUNT * (|s.workers| * perWorker)
    ensures Run(PLAIN, s, es, s') && Sim(balance, perWorker, s', r')
    decreases |fs|
  {
    if fs == [] {
      es, s' := [], s;
    } else {
      var first, next := RealStep(balance, perWorker, s, r, fs[0]);
      var more;
      more, s' := RealRun(balance, perWorker, next, R.Apply(false, perWorker, r, fs[0]), fs[1..], r');
      RunAppend(PLAIN, s, first, next, more, s');
      es := first + more;
    }
  }

  /** At the end of both: everything was confirmed, and what is lost is what the counter misses. */
  lemma SimEnd(balance: int, perWorker: nat, s: State, r: R.State)
    requires Sim(balance, perWorker, s, r)
    ensures Finished(s) <==> R.AllDone(perWorker, r)
    ensures Finished(s) ==> TotalOk(s) == |s.workers| * perWorker
    ensures Finished(s) ==> Lost(balance, s) == |s.workers| * perWorker - r.counter
  {
    assert forall w :: 0 <= w < |s.workers| ==> Match(balance, perWorker, s.workers[w], r.threads[w]);
    if Finished(s) {
      SumBounds(Oks(s.workers), perWorker, perWorker);
      assert s.committed - (balance - TotalOk(s) * AMOUNT) == AMOUNT * (|s.workers| * perWorker - r.counter);
    }
  }

  /** The program, with these workers and requests, can print this `lost`. */
  ghost predicate CanLose(balance: int, workers: nat, perWorker: nat, lost: int) {
    exists s :: Reachable(PLAIN, balance, workers, perWorker, s) && Finished(s) && Lost(balance, s) == lost
  }

  /** The most that can be lost: all but one of one request each, all but two of two or more, none by one worker. */
  function MostLost(workers: nat, perWorker: nat): int {
    if workers == 1 then 0 else if perWorker == 1 then workers - 1 else workers * perWorker - 2
  }

  /**
   The plain read-modify-write with enough money, run to its end: for each number of workers and of requests per
   worker, exactly which losses are possible.
   */
  lemma PlainLosses(balance: int, workers: nat, perWorker: nat, lost: int)
    requires workers >= 1 && perWorker >= 1 && balance >= AMOUNT * (workers * perWorker)
    ensures CanLose(balance, workers, perWorker, lost) <==> 0 <= lost <= MostLost(workers, perWorker)
  {
    R.UnlockedRange(workers, perWorker, if lost <= workers * perWorker then workers * perWorker - lost else 0);
    if CanLose(balance, workers, perWorker, lost) {
      var s :| Reachable(PLAIN, balance, workers, perWorker, s) && Finished(s) && Lost(balance, s) == lost;
      var fs, r := PlainEnd(balance, workers, perWorker, s);
    }
    if 0 <= lost <= MostLost(workers, perWorker) {
      assert workers * perWorker >= workers + perWorker - 1 by { Product(workers, perWorker); }
      var s := LoseSome(balance, workers, perWorker, lost);
    }
  }

  lemma Product(n: nat, k: nat)
    requires n >= 1 && k >= 1
    ensures n * k >= n + k - 1
  {
    assert (n - 1) * (k - 1) >= 0;
  }

  /** A finished run confirms every request, and is a run of the increments. */
  lemma PlainEnd(balance: int, workers: nat, perWorker: nat, s: State) returns (fs: seq<R.Event>, r: R.State)
    requires workers >= 1 && balance >= AMOUNT * (workers * perWorker)
    requires Reachable(PLAIN, balance, workers, perWorker, s) && Finished(s)
    ensures TotalOk(s) == workers * perWorker && Lost(balance, s) == workers * perWorker - r.counter
    ensures R.Run(false, perWorker, R.Start(workers), fs, r) && R.AllDone(perWorker, r)
  {
    var s0 := Start(balance, workers, perWorker);
    var es :| Run(PLAIN, s0, es, s);
    SimStart(balance, workers, perWorker);
    fs, r := SimRun(balance, perWorker, s0, es, s, R.Start(workers));
    SimEnd(balance, perWorker, s, r);
  }

  /** A finished run that loses so much. */
  lemma LoseSome(balance: int, workers: nat, perWorker: nat, lost: nat) returns (s: State)
    requires workers >= 1 && balance >= AMOUNT * (workers * perWorker) && lost <= workers * perWorker
    requires R.CanReturn(false, workers, perWorker, workers * perWorker - lost)
    ensures Reachable(PLAIN, balance, workers, perWorker, s) && Finished(s)
    ensures TotalOk(s) == workers * perWorker && Lost(balance, s) == lost
  {
    var fs, r :| R.Run(false, perWorker, R.Start(workers), fs, r) && R.AllDone(perWorker, r)
      && r.counter == workers * perWorker - lost;
    SimStart(balance, workers, perWorker);
    var es;
    es, s := RealRun(balance, perWorker, Start(balance, workers, perWorker), R.Start(workers), fs, r);
    SimEnd(balance, perWorker, s, r);
    R.UnlockedRun(perWorker, R.Start(workers), fs, r);
  }

  /**
   Whatever the numbers of workers and requests: with ok confirmed, 0 to ok - 1 are lost in some run, and no others.
   */
  lemma LossesOverAllShapes(balance: int, ok: nat, lost: int)
    requires ok >= 1 && balance >= AMOUNT * ok
    ensures (exists workers: nat, perWorker: nat, s :: Reachable(PLAIN, balance, workers, perWorker, s) && Finished(s)
              && TotalOk(s) == ok && Lost(balance, s) == lost)
            <==> 0 <= lost <= ok - 1
  {
    if workers: nat, perWorker: nat, s :|
      Reachable(PLAIN, balance, workers, perWorker, s) && Finished(s) && TotalOk(s) == ok && Lost(balance, s) == lost
    {
      PlainBound(balance, workers, perWorker, s);
    }
    if 0 <= lost <= ok - 1 {
      R.UnlockedRange(ok, 1, ok - lost);
      var s := LoseSome(balance, ok, 1, lost);
    }
  }

  // ---------------------------------------------------------------- the same steps, in place

  /** The account row and the workers, overwritten where they are. */
  class Account {
    const v: Variant
    var committed: int
    var version: nat
    var owner: Option<nat>
    const workers: array<Worker>

    ghost function View(): State
      reads this, workers
    {
      State(committed, version, owner, workers[..])
    }

    constructor (v: Variant, balance: int, n: nat, perWorker: nat)
      ensures this.v == v && View() == Start(balance, n, perWorker) && fresh(workers)
    {
      this.v := v;
      committed, version, owner := balance, 0, None;
      workers := new Worker[n](_ => Worker(perWorker, 0, Idle, Tally(0, 0, 0, 0, 0)));
      new;
      assert workers[..] == Start(balance, n, perWorker).workers;
    }

    /** Commit or rollback: the lock goes, and the loop counters move on. */
    method Finish(w: nat, o: Outcome)
      requires w < workers.Length
      modifies this`owner, workers
      ensures owner == Unlock(old(View()), w)
      ensures workers[..] == old(workers[..])[w := AfterAttempt(old(workers[w]), o)]
    {
      if owner == Some(w) {
        owner := None;
      }
      workers[w] := AfterAttempt(workers[w], o);
    }

    method Do(e: Event)
      requires Enabled(v, View(), e)
      modifies this, workers
      ensures View() == Apply(v, old(View()), e)
    {
      var k := workers[e.w];
      match e
      case See(w) =>
        if v.forUpdate {
          owner := Some(w);
        }
        workers[w] := k.(txn := Seen(committed, version));
      case Write(w) =>
        if v.atomic && committed < AMOUNT {
          workers[w] := k.(txn := Declining);
        } else {
          owner := Some(w);
          workers[w] := k.(txn := Wrote(if v.atomic then committed - AMOUNT else k.txn.balance - AMOUNT));
        }
      case Decline(w) => Finish(w, Declined);
      case Commit(w) =>
        committed, version := k.txn.value, version + 1;
        Finish(w, Ok);
      case Fail(w) => Finish(w, Failed);
    }

    /** Any schedule of steps, executed on the row, is a run of the step system. */
    method Execute(es: seq<Event>, ghost final: State)
      requires Run(v, View(), es, final)
      modifies this, workers
      ensures View() == final
    {
      for i := 0 to |es|
        invariant Run(v, View(), es[i..], final)
      {
        assert es[i..][0] == es[i] && es[i..][1..] == es[i + 1..];
        Do(es[i]);
      }
    }
  }
}
