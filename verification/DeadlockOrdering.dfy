/**
 Concurrent transfers between accounts, each in its own transaction, under the
 row-lock rules of PostgreSQL: `FOR UPDATE` waits for the holder, locks are held to
 commit or rollback, and a transaction is aborted as a deadlock victim only when it
 lies on a cycle of the waits-for graph.

 The application's part is which row is locked first, what is written, and the
 five-attempt loop around the transaction.
 */
module DeadlockOrdering {
  import opened Common

  const MAX_RETRIES: nat := 5

  datatype Transfer = Transfer(a: nat, b: nat, cents: int)

  /** Where a worker stands inside its transaction; `Idle` is between transactions. */
  datatype Phase = Idle | WantFirst | WantSecond | Debiting | Crediting | Committing

  datatype Stats = Stats(done: nat, deadlocks: nat, gaveUp: nat)

  /** `undo` holds the row images to restore on rollback, newest first. */
  datatype Worker = Worker(todo: seq<Transfer>, attempt: nat, phase: Phase, undo: seq<(nat, int)>, stats: Stats)

  /** `readCommitted` says that the server never raises 40001. */
  datatype Config = Config(ordered: bool, readCommitted: bool)

  /** `log` lists the committed transfers newest first. */
  datatype State = State(
    balances: seq<int>, owner: seq<Option<nat>>, workers: seq<Worker>, log: seq<Transfer>)

  datatype Outcome = Committed | DeadlockVictim | SerializationFailure

  datatype Event =
    | Begin(w: nat)
    | Lock(w: nat)
    | Debit(w: nat)
    | Credit(w: nat)
    | Commit(w: nat)
    | Abort(w: nat, why: Outcome)

  // ---------------------------------------------------------------- the worker loop

  /** What one attempt's outcome does to the worker's counters and its place in the loops. */
  function AfterAttempt(k: Worker, o: Outcome): Worker {
    if k.todo == [] then k
    else
      var idle := k.(phase := Idle, undo := []);
      if o == Committed then
        idle.(todo := k.todo[1..], attempt := 0, stats := k.stats.(done := k.stats.done + 1))
      else
        var stats := if o == DeadlockVictim then k.stats.(deadlocks := k.stats.deadlocks + 1) else k.stats;
        if k.attempt + 1 < MAX_RETRIES then
          idle.(attempt := k.attempt + 1, stats := stats)
        else
          idle.(todo := k.todo[1..], attempt := 0, stats := stats.(gaveUp := stats.gaveUp + 1))
  }

  function Fresh(todo: seq<Transfer>): Worker {
    Worker(todo, 0, Idle, [], Stats(0, 0, 0))
  }

  /** What a worker has come to after these attempts, newest first. */
  function Replay(k: Worker, outcomes: seq<Outcome>): Worker {
    if outcomes == [] then k else AfterAttempt(Replay(k, outcomes[1..]), outcomes[0])
  }

  function CountOf(trace: seq<Outcome>, o: Outcome): nat {
    if trace == [] then 0 else CountOf(trace[1..], o) + if trace[0] == o then 1 else 0
  }

  /** Deadlocks a request meets from its i-th attempt on, until it commits or is given up. */
  function Victims(outcome: (nat, nat) -> Outcome, r: nat, i: nat): nat
    decreases MAX_RETRIES - i
  {
    if i >= MAX_RETRIES || outcome(r, i) == Committed then 0
    else Victims(outcome, r, i + 1) + if outcome(r, i) == DeadlockVictim then 1 else 0
  }

  function AllVictims(outcome: (nat, nat) -> Outcome, n: nat): nat {
    if n == 0 then 0 else AllVictims(outcome, n - 1) + Victims(outcome, n - 1, 0)
  }

  /** No attempt at request r from the i-th on commits. */
  predicate NeverCommits(outcome: (nat, nat) -> Outcome, r: nat, i: nat)
    decreases MAX_RETRIES - i
  {
    i >= MAX_RETRIES || (outcome(r, i) != Committed && NeverCommits(outcome, r, i + 1))
  }

  /** Of the first n requests, those of which all five attempts fail. */
  function Hopeless(outcome: (nat, nat) -> Outcome, n: nat): nat {
    if n == 0 then 0 else Hopeless(outcome, n - 1) + if NeverCommits(outcome, n - 1, 0) then 1 else 0
  }

  /** ks[i] is the worker after the attempts trace[i..], newest first. */
  ghost predicate Stages(start: Worker, ks: seq<Worker>, trace: seq<Outcome>) {
    && |ks| == |trace| + 1 && ks[|trace|] == start
    && forall i :: 0 <= i < |trace| ==> ks[i] == AfterAttempt(ks[i + 1], trace[i])
  }

  lemma {:induction false} StagesReplay(start: Worker, ks: seq<Worker>, trace: seq<Outcome>)
    requires Stages(start, ks, trace)
    ensures Replay(start, trace) == ks[0]
  {
    if trace != [] {
      StagesReplay(start, ks[1..], trace[1..]);
    }
  }

  lemma OneMoreStage(start: Worker, ks: seq<Worker>, trace: seq<Outcome>, o: Outcome)
    requires Stages(start, ks, trace)
    ensures Stages(start, [AfterAttempt(ks[0], o)] + ks, [o] + trace)
    ensures forall x :: CountOf([o] + trace, x) == CountOf(trace, x) + if o == x then 1 else 0
  {
    assert ([o] + trace)[1..] == trace;
  }

  /** The nested loops of one worker. `outcome(r, i)` is what the i-th attempt at request r meets. */
  method WorkerBody(requests: seq<Transfer>, outcome: (nat, nat) -> Outcome)
    returns (stats: Stats, trace: seq<Outcome>)
    ensures Replay(Fresh(requests), trace) == Worker([], 0, Idle, [], stats)
    ensures stats.done + stats.gaveUp == |requests|
    ensures stats.done == CountOf(trace, Committed) && stats.deadlocks == CountOf(trace, DeadlockVictim)
    ensures stats.deadlocks == AllVictims(outcome, |requests|) && stats.gaveUp == Hopeless(outcome, |requests|)
    ensures |requests| <= |trace| <= MAX_RETRIES * |requests|
  {
    stats, trace := Stats(0, 0, 0), [];
    ghost var todo, ks := requests, [Fresh(requests)];
    for r := 0 to |requests|
      invariant |todo| == |requests| - r
      invariant Stages(Fresh(requests), ks, trace) && ks[0] == Worker(todo, 0, Idle, [], stats)
      invariant stats.done + stats.gaveUp == r && stats.gaveUp == Hopeless(outcome, r)
      invariant stats.done == CountOf(trace, Committed)
      invariant stats.deadlocks == CountOf(trace, DeadlockVictim) == AllVictims(outcome, r)
      invariant r <= |trace| <= MAX_RETRIES * r
    {
      stats, trace, ks := OneRequest(r, outcome, stats, trace, Fresh(requests), ks);
      todo := todo[1..];
    }
    StagesReplay(Fresh(requests), ks, trace);
  }

  /** One request: up to five attempts, the first that commits being the last. */
  method OneRequest(r: nat, outcome: (nat, nat) -> Outcome, stats0: Stats, trace0: seq<Outcome>,
                    ghost start: Worker, ghost ks0: seq<Worker>)
    returns (stats: Stats, trace: seq<Outcome>, ghost ks: seq<Worker>)
    requires Stages(start, ks0, trace0) && ks0[0].todo != [] && ks0[0] == Worker(ks0[0].todo, 0, Idle, [], stats0)
    ensures Stages(start, ks, trace) && ks[0] == Worker(ks0[0].todo[1..], 0, Idle, [], stats)
    ensures |trace0| < |trace| <= |trace0| + MAX_RETRIES
    ensures CountOf(trace, Committed) - CountOf(trace0, Committed) == stats.done - stats0.done
    ensures CountOf(trace, DeadlockVictim) - CountOf(trace0, DeadlockVictim) == stats.deadlocks - stats0.deadlocks
    ensures stats.deadlocks == stats0.deadlocks + Victims(outcome, r, 0)
    ensures stats.gaveUp == stats0.gaveUp + if NeverCommits(outcome, r, 0) then 1 else 0
    ensures stats.done == stats0.done + if NeverCommits(outcome, r, 0) then 0 else 1
  {
    stats, trace, ks := stats0, trace0, ks0;
    for attempt := 0 to MAX_RETRIES
      invariant Stages(start, ks, trace) && |trace| == |trace0| + attempt
      invariant ks[0] == if attempt < MAX_RETRIES then Worker(ks0[0].todo, attempt, Idle, [], stats)
                         else Worker(ks0[0].todo[1..], 0, Idle, [], stats.(gaveUp := stats.gaveUp + 1))
      invariant stats.done == stats0.done && stats.gaveUp == stats0.gaveUp
      invariant CountOf(trace, Committed) == CountOf(trace0, Committed)
      invariant CountOf(trace, DeadlockVictim) - CountOf(trace0, DeadlockVictim) == stats.deadlocks - stats0.deadlocks
      invariant stats.deadlocks + Victims(outcome, r, attempt) == stats0.deadlocks + Victims(outcome, r, 0)
      invariant NeverCommits(outcome, r, 0) <==> NeverCommits(outcome, r, attempt)
    {
      var o := outcome(r, attempt);
      OneMoreStage(start, ks, trace, o);
      trace, ks := [o] + trace, [AfterAttempt(ks[0], o)] + ks;
      match o
      case Committed =>
        stats := stats.(done := stats.done + 1);
        return;
      case DeadlockVictim => stats := stats.(deadlocks := stats.deadlocks + 1);
      case SerializationFailure =>
    }
    stats := stats.(gaveUp := stats.gaveUp + 1);
  }

  // ---------------------------------------------------------------- the step system

  function Row1(c: Config, t: Transfer): nat { if c.ordered then Min(t.a, t.b) else t.a }

  function Row2(c: Config, t: Transfer): nat { if c.ordered then Max(t.a, t.b) else t.b }

  /** The row a worker in a locking phase asks for next. */
  function Want(c: Config, k: Worker): nat
    requires k.todo != []
  {
    if k.phase == WantFirst then Row1(c, k.todo[0]) else Row2(c, k.todo[0])
  }

  predicate Holds(c: Config, k: Worker, r: nat) {
    k.todo != [] && k.phase !in {Idle, WantFirst} &&
    (r == Row1(c, k.todo[0]) || (k.phase != WantSecond && r == Row2(c, k.todo[0])))
  }

  predicate Locking(s: State, w: nat) {
    w < |s.workers| && s.workers[w].todo != [] && s.workers[w].phase in {WantFirst, WantSecond}
  }

  /** w asks for a row that v holds. */
  predicate WaitsFor(c: Config, s: State, w: nat, v: nat) {
    Locking(s, w) && v != w &&
    Want(c, s.workers[w]) < |s.owner| && s.owner[Want(c, s.workers[w])] == Some(v)
  }

  ghost predicate Blocked(c: Config, s: State, w: nat) {
    exists v :: WaitsFor(c, s, w, v)
  }

  predicate Link(c: Config, s: State, p: seq<nat>, i: nat) {
    i + 1 < |p| && WaitsFor(c, s, p[i], p[i + 1])
  }

  ghost predicate WaitPath(c: Config, s: State, p: seq<nat>) {
    |p| >= 2 && forall i :: 0 <= i < |p| - 1 ==> Link(c, s, p, i)
  }

  ghost predicate Cycle(c: Config, s: State, p: seq<nat>) {
    WaitPath(c, s, p) && p[0] == p[|p| - 1]
  }

  ghost predicate OnCycle(c: Config, s: State, w: nat) {
    exists p :: Cycle(c, s, p) && p[0] == w
  }

  ghost predicate Enabled(c: Config, s: State, e: Event) {
    e.w < |s.workers| && s.workers[e.w].todo != [] &&
    var k := s.workers[e.w];
    match e
    case Begin(w) => k.phase == Idle
    case Lock(w) =>
      Locking(s, w) && Want(c, k) < |s.owner| && s.owner[Want(c, k)] in {None, Some(w)}
    case Debit(w) => k.phase == Debiting && k.todo[0].a < |s.balances|
    case Credit(w) => k.phase == Crediting && k.todo[0].b < |s.balances|
    case Commit(w) => k.phase == Committing
    case Abort(w, why) =>
      match why
      case Committed => false
      case DeadlockVictim => OnCycle(c, s, w)
      case SerializationFailure => !c.readCommitted && k.phase != Idle
  }

  /** Rollback: put the row images back, newest first. */
  function Restore(balances: seq<int>, undo: seq<(nat, int)>): (r: seq<int>)
    ensures |r| == |balances|
    decreases |undo|
  {
    if undo == [] then balances
    else
      var (row, was) := undo[0];
      Restore(if row < |balances| then balances[row := was] else balances, undo[1..])
  }

  ghost function Apply(c: Config, s: State, e: Event): State
    requires Enabled(c, s, e)
  {
    var k := s.workers[e.w];
    match e
    case Begin(w) => s.(workers := s.workers[w := k.(phase := WantFirst)])
    case Lock(w) =>
      s.(owner := s.owner[Want(c, k) := Some(w)],
         workers := s.workers[w := k.(phase := if k.phase == WantFirst then WantSecond else Debiting)])
    case Debit(w) =>
      var a := k.todo[0].a;
      s.(balances := s.balances[a := s.balances[a] - k.todo[0].cents],
         workers := s.workers[w := k.(phase := Crediting, undo := [(a, s.balances[a])] + k.undo)])
    case Credit(w) =>
      var b := k.todo[0].b;
      s.(balances := s.balances[b := s.balances[b] + k.todo[0].cents],
         workers := s.workers[w := k.(phase := Committing, undo := [(b, s.balances[b])] + k.undo)])
    case Commit(w) =>
      s.(owner := ReleaseLocks(s.owner, w),
         workers := s.workers[w := AfterAttempt(k, Committed)],
         log := [k.todo[0]] + s.log)
    case Abort(w, why) =>
      s.(balances := Restore(s.balances, k.undo),
         owner := ReleaseLocks(s.owner, w),
         workers := s.workers[w := AfterAttempt(k, why)])
  }

  ghost predicate Run(c: Config, s: State, es: seq<Event>, s': State)
    decreases |es|
  {
    if es == [] then s == s'
    else Enabled(c, s, es[0]) && Run(c, Apply(c, s, es[0]), es[1..], s')
  }

  function Start(balances: seq<int>, requests: seq<seq<Transfer>>): State {
    State(balances, seq(|balances|, _ => None),
          seq(|requests|, i requires 0 <= i < |requests| => Fresh(requests[i])), [])
  }

  /** The callers draw both accounts from the ids that exist. */
  ghost predicate RowsExist(balances: seq<int>, requests: seq<seq<Transfer>>) {
    forall w, i :: 0 <= w < |requests| && 0 <= i < |requests[w]| ==>
      requests[w][i].a < |balances| && requests[w][i].b < |balances|
  }

  ghost predicate Reachable(c: Config, balances: seq<int>, requests: seq<seq<Transfer>>, s: State) {
    RowsExist(balances, requests) && exists es :: Run(c, Start(balances, requests), es, s)
  }

  predicate Finished(s: State) {
    forall w :: 0 <= w < |s.workers| ==> s.workers[w].todo == []
  }

  // ---------------------------------------------------------------- the invariant

  function Delta(t: Transfer, r: nat): int {
    (if r == t.a then -t.cents else 0) + (if r == t.b then t.cents else 0)
  }

  /** Credits minus debits of row r over a list of transfers. */
  function Net(log: seq<Transfer>, r: nat): int {
    if log == [] then 0 else Net(log[1..], r) + Delta(log[0], r)
  }

  /** What the committed transfers alone leave in row r. */
  function Base(start: seq<int>, log: seq<Transfer>, r: nat): int
    requires r < |start|
  {
    start[r] + Net(log, r)
  }

  /** The uncommitted change of row r by a worker. */
  function InFlight(k: Worker, r: nat): int {
    if k.todo == [] then 0
    else match k.phase
      case Crediting => if r == k.todo[0].a then -k.todo[0].cents else 0
      case Committing => Delta(k.todo[0], r)
      case _ => 0
  }

  /** The worker's place in its loops: every request is done, given up or still to do. */
  ghost predicate LoopOk(start: seq<int>, requests: seq<Transfer>, k: Worker) {
    && k.attempt < MAX_RETRIES
    && |k.todo| <= |requests|
    && (forall i :: 0 <= i < |k.todo| ==> k.todo[i] == requests[|requests| - |k.todo| + i])
    && k.stats.done + k.stats.gaveUp + |k.todo| == |requests|
    && (forall i :: 0 <= i < |requests| ==> requests[i].a < |start| && requests[i].b < |start|)
    && (k.todo == [] ==> k.phase == Idle && k.attempt == 0)
  }

  /** The saved row images are the committed values of the rows the worker has written. */
  ghost predicate UndoOk(start: seq<int>, log: seq<Transfer>, k: Worker) {
    if k.todo == [] || k.phase !in {Crediting, Committing} then k.undo == []
    else
      var t := k.todo[0];
      t.a < |start| && t.b < |start| &&
      if k.phase == Crediting then k.undo == [(t.a, Base(start, log, t.a))]
      else k.undo == [(t.b, Base(start, log, t.b) - if t.a == t.b then t.cents else 0),
                      (t.a, Base(start, log, t.a))]
  }

  ghost predicate LocksOk(c: Config, s: State) {
    && (forall r :: 0 <= r < |s.owner| && s.owner[r].Some? ==> s.owner[r].value < |s.workers|)
    && (forall r, w :: 0 <= r < |s.owner| && 0 <= w < |s.workers| ==>
         (s.owner[r] == Some(w) <==> Holds(c, s.workers[w], r)))
  }

  /** A row shows its committed value plus what its lock holder has written so far. */
  ghost predicate RowOk(start: seq<int>, s: State, r: nat)
    requires |s.balances| == |start| == |s.owner| && r < |start|
  {
    s.balances[r] == Base(start, s.log, r) +
      if s.owner[r].Some? && s.owner[r].value < |s.workers|
      then InFlight(s.workers[s.owner[r].value], r) else 0
  }

  ghost predicate MoneyOk(start: seq<int>, s: State)
    requires |s.balances| == |start| == |s.owner|
  {
    forall r :: 0 <= r < |start| ==> RowOk(start, s, r)
  }

  function Dones(workers: seq<Worker>): seq<int> {
    seq(|workers|, i requires 0 <= i < |workers| => workers[i].stats.done)
  }

  ghost predicate LogOk(start: seq<int>, s: State) {
    && |s.log| == Sum(Dones(s.workers))
    && (forall i :: 0 <= i < |s.log| ==> s.log[i].a < |start| && s.log[i].b < |start|)
  }

  ghost predicate Inv(c: Config, start: seq<int>, requests: seq<seq<Transfer>>, s: State) {
    && |s.balances| == |s.owner| == |start|
    && |s.workers| == |requests|
    && (forall w :: 0 <= w < |s.workers| ==> LoopOk(start, requests[w], s.workers[w]))
    && (forall w :: 0 <= w < |s.workers| ==> UndoOk(start, s.log, s.workers[w]))
    && LocksOk(c, s)
    && MoneyOk(start, s)
  }

  lemma InitInv(c: Config, start: seq<int>, requests: seq<seq<Transfer>>)
    requires RowsExist(start, requests)
    ensures Inv(c, start, requests, Start(start, requests)) && LogOk(start, Start(start, requests))
  {
    InitLog(start, requests);
  }

  lemma InitLog(start: seq<int>, requests: seq<seq<Transfer>>)
    ensures LogOk(start, Start(start, requests))
  {
    SumBounds(Dones(Start(start, requests).workers), 0, 0);
  }

  lemma LocksKept(c: Config, s: State, e: Event)
    requires LocksOk(c, s) && Enabled(c, s, e)
    ensures LocksOk(c, Apply(c, s, e))
  {
    var s' := Apply(c, s, e);
    forall r, v | 0 <= r < |s'.owner| && 0 <= v < |s'.workers|
      ensures s'.owner[r] == Some(v) <==> Holds(c, s'.workers[v], r)
    {
      assert s.owner[r] == Some(v) <==> Holds(c, s.workers[v], r);
    }
  }

  lemma LoopsKept(c: Config, start: seq<int>, requests: seq<seq<Transfer>>, s: State, e: Event)
    requires Inv(c, start, requests, s) && Enabled(c, s, e)
    ensures forall v :: 0 <= v < |requests| ==> LoopOk(start, requests[v], Apply(c, s, e).workers[v])
  {
    var k := s.workers[e.w];
    assert LoopOk(start, requests[e.w], k);
  }

  /** A worker past its locking phases owns both of its rows. */
  lemma OwnsBoth(c: Config, start: seq<int>, requests: seq<seq<Transfer>>, s: State, w: nat)
    requires Inv(c, start, requests, s) && w < |s.workers|
    requires s.workers[w].phase in {Debiting, Crediting, Committing}
    ensures s.workers[w].todo != []
    ensures var t := s.workers[w].todo[0];
            t.a < |start| && t.b < |start| && s.owner[t.a] == Some(w) && s.owner[t.b] == Some(w)
  {
    var k := s.workers[w];
    assert LoopOk(start, requests[w], k);
    assert k.todo[0] == requests[w][|requests[w]| - |k.todo|];
    var t := k.todo[0];
    assert Holds(c, k, t.a) && Holds(c, k, t.b);
  }

  lemma OwnUndoKept(c: Config, start: seq<int>, requests: seq<seq<Transfer>>, s: State, e: Event)
    requires Inv(c, start, requests, s) && Enabled(c, s, e)
    ensures UndoOk(start, Apply(c, s, e).log, Apply(c, s, e).workers[e.w])
  {
    var k := s.workers[e.w];
    assert UndoOk(start, s.log, k);
    if k.phase in {Debiting, Crediting} {
      OwnsBoth(c, start, requests, s, e.w);
      assert RowOk(start, s, k.todo[0].a) && RowOk(start, s, k.todo[0].b);
    }
  }

  lemma UndoKept(c: Config, start: seq<int>, requests: seq<seq<Transfer>>, s: State, e: Event, v: nat)
    requires Inv(c, start, requests, s) && Enabled(c, s, e) && v < |requests| && v != e.w
    ensures UndoOk(start, Apply(c, s, e).log, Apply(c, s, e).workers[v])
  {
    var k := s.workers[v];
    assert UndoOk(start, s.log, k);
    if e.Commit? && k.phase in {Crediting, Committing} {
      OwnsBoth(c, start, requests, s, v);
      OwnsBoth(c, start, requests, s, e.w);
    }
  }

  /** Rolling back takes exactly the worker's own uncommitted change out again. */
  lemma RestoreUndo(c: Config, start: seq<int>, requests: seq<seq<Transfer>>, s: State, w: nat)
    requires Inv(c, start, requests, s) && w < |s.workers| && s.workers[w].todo != []
    ensures forall r :: 0 <= r < |start| ==>
              Restore(s.balances, s.workers[w].undo)[r] == s.balances[r] - InFlight(s.workers[w], r)
  {
    var k := s.workers[w];
    assert UndoOk(start, s.log, k);
    if k.phase == Crediting {
      OwnsBoth(c, start, requests, s, w);
      assert RowOk(start, s, k.todo[0].a);
      assert k.undo[1..] == [];
    } else if k.phase == Committing {
      OwnsBoth(c, start, requests, s, w);
      var t := k.todo[0];
      assert RowOk(start, s, t.a) && RowOk(start, s, t.b);
      var mid := s.balances[t.b := k.undo[0].1];
      assert k.undo[1..] == [k.undo[1]] && k.undo[1..][1..] == [];
      assert Restore(mid, k.undo[1..]) == mid[t.a := k.undo[1].1];
    }
  }

  /** Rows the acting worker does not hold keep their value, their holder and their base. */
  lemma OtherRowKept(c: Config, start: seq<int>, requests: seq<seq<Transfer>>, s: State, e: Event, r: nat)
    requires Inv(c, start, requests, s) && Enabled(c, s, e) && r < |start| && s.owner[r] != Some(e.w)
    ensures RowOk(start, Apply(c, s, e), r)
  {
    assert RowOk(start, s, r);
    var k := s.workers[e.w];
    match e
    case Begin(w) =>
    case Lock(w) =>
    case Debit(w) => OwnsBoth(c, start, requests, s, w);
    case Credit(w) => OwnsBoth(c, start, requests, s, w);
    case Commit(w) =>
      OwnsBoth(c, start, requests, s, w);
    case Abort(w, why) =>
      RestoreUndo(c, start, requests, s, w);
      if k.phase in {Crediting, Committing} {
        OwnsBoth(c, start, requests, s, w);
      }
      assert InFlight(k, r) == 0;
  }

  lemma OwnRowKept(c: Config, start: seq<int>, requests: seq<seq<Transfer>>, s: State, e: Event, r: nat)
    requires Inv(c, start, requests, s) && Enabled(c, s, e) && r < |start| && s.owner[r] == Some(e.w)
    ensures RowOk(start, Apply(c, s, e), r)
  {
    assert RowOk(start, s, r);
    if e.Commit? {
    } else if e.Abort? {
      RestoreUndo(c, start, requests, s, e.w);
    }
  }

  lemma LogKept(c: Config, start: seq<int>, requests: seq<seq<Transfer>>, s: State, e: Event)
    requires Inv(c, start, requests, s) && LogOk(start, s) && Enabled(c, s, e)
    ensures LogOk(start, Apply(c, s, e))
  {
    var s' := Apply(c, s, e);
    assert Dones(s'.workers) == Dones(s.workers)[e.w := s'.workers[e.w].stats.done];
    SumUpdate(Dones(s.workers), e.w, s'.workers[e.w].stats.done);
    if e.Commit? {
      OwnsBoth(c, start, requests, s, e.w);
    }
  }

  lemma StepInv(c: Config, start: seq<int>, requests: seq<seq<Transfer>>, s: State, e: Event)
    requires Inv(c, start, requests, s) && Enabled(c, s, e)
    ensures Inv(c, start, requests, Apply(c, s, e))
  {
    LocksKept(c, s, e);
    LoopsKept(c, start, requests, s, e);
    forall v | 0 <= v < |requests| ensures UndoOk(start, Apply(c, s, e).log, Apply(c, s, e).workers[v]) {
      if v == e.w {
        OwnUndoKept(c, start, requests, s, e);
      } else {
        UndoKept(c, start, requests, s, e, v);
      }
    }
    forall r | 0 <= r < |start| ensures RowOk(start, Apply(c, s, e), r) {
      if s.owner[r] == Some(e.w) {
        OwnRowKept(c, start, requests, s, e, r);
      } else {
        OtherRowKept(c, start, requests, s, e, r);
      }
    }
  }

  lemma {:induction false} RunInv(c: Config, start: seq<int>, requests: seq<seq<Transfer>>,
                                  s: State, es: seq<Event>, s': State)
    requires Inv(c, start, requests, s) && LogOk(start, s) && Run(c, s, es, s')
    ensures Inv(c, start, requests, s') && LogOk(start, s')
    decreases |es|
  {
    if es != [] {
      StepInv(c, start, requests, s, es[0]);
      LogKept(c, start, requests, s, es[0]);
      RunInv(c, start, requests, Apply(c, s, es[0]), es[1..], s');
    }
  }

  lemma ReachableInv(c: Config, start: seq<int>, requests: seq<seq<Transfer>>, s: State)
    requires Reachable(c, start, requests, s)
    ensures Inv(c, start, requests, s) && LogOk(start, s)
  {
    var es :| Run(c, Start(start, requests), es, s);
    InitInv(c, start, requests);
    RunInv(c, start, requests, Start(start, requests), es, s);
  }

  // ---------------------------------------------------------------- money

  /** What a reader of committed rows sees. */
  function CommittedRows(start: seq<int>, log: seq<Transfer>): seq<int> {
    seq(|start|, r requires 0 <= r < |start| => Base(start, log, r))
  }

  lemma {:induction false} CommittedTotal(start: seq<int>, log: seq<Transfer>)
    requires forall i :: 0 <= i < |log| ==> log[i].a < |start| && log[i].b < |start|
    ensures Sum(CommittedRows(start, log)) == Sum(start)
  {
    if log == [] {
      assert CommittedRows(start, log) == start;
    } else {
      var older, t := log[1..], log[0];
      CommittedTotal(start, older);
      var rows := CommittedRows(start, older);
      var debited := rows[t.a := rows[t.a] - t.cents];
      SumUpdate(rows, t.a, rows[t.a] - t.cents);
      SumUpdate(debited, t.b, debited[t.b] + t.cents);
      assert CommittedRows(start, log) == debited[t.b := debited[t.b] + t.cents];
    }
  }

  /** No worker is between its two updates and its commit. */
  predicate NothingInFlight(s: State) {
    forall w :: 0 <= w < |s.workers| ==> s.workers[w].phase !in {Crediting, Committing}
  }

  /**
   Under any interleaving of waits, commits, deadlock aborts, rollbacks and retries: the
   committed rows are the start plus credits minus debits of the committed transfers, their
   total never changes, every request is accounted for, and whenever no transaction is
   half-written the table itself holds the committed rows.
   */
  lemma MoneyConserved(c: Config, start: seq<int>, requests: seq<seq<Transfer>>, s: State)
    requires Reachable(c, start, requests, s)
    ensures Sum(CommittedRows(start, s.log)) == Sum(start)
    ensures |s.balances| == |start| && |s.workers| == |requests|
    ensures |s.log| == Sum(Dones(s.workers))
    ensures forall w :: 0 <= w < |requests| ==>
              s.workers[w].stats.done + s.workers[w].stats.gaveUp + |s.workers[w].todo| == |requests[w]|
    ensures NothingInFlight(s) ==> s.balances == CommittedRows(start, s.log) && Sum(s.balances) == Sum(start)
    ensures Finished(s) ==> NothingInFlight(s)
  {
    ReachableInv(c, start, requests, s);
    CommittedTotal(start, s.log);
    LoopsAccount(start, requests, s);
    if NothingInFlight(s) {
      QuietRows(c, start, requests, s);
    }
  }

  lemma LoopsAccount(start: seq<int>, requests: seq<seq<Transfer>>, s: State)
    requires |s.workers| == |requests|
    requires forall w :: 0 <= w < |s.workers| ==> LoopOk(start, requests[w], s.workers[w])
    ensures forall w :: 0 <= w < |requests| ==>
              s.workers[w].stats.done + s.workers[w].stats.gaveUp + |s.workers[w].todo| == |requests[w]|
    ensures Finished(s) ==> NothingInFlight(s)
  {
  }

  lemma QuietRows(c: Config, start: seq<int>, requests: seq<seq<Transfer>>, s: State)
    requires Inv(c, start, requests, s) && NothingInFlight(s)
    ensures s.balances == CommittedRows(start, s.log)
  {
    forall r | 0 <= r < |start| ensures s.balances[r] == CommittedRows(start, s.log)[r] {
      assert RowOk(start, s, r);
    }
  }

  // ---------------------------------------------------------------- what the counters count

  function Deadlocks(workers: seq<Worker>): seq<int> {
    seq(|workers|, i requires 0 <= i < |workers| => workers[i].stats.deadlocks)
  }

  function VictimEvents(es: seq<Event>): nat {
    if es == [] then 0
    else VictimEvents(es[1..]) + if es[0].Abort? && es[0].why == DeadlockVictim then 1 else 0
  }

  function CommitEvents(es: seq<Event>): nat {
    if es == [] then 0 else CommitEvents(es[1..]) + if es[0].Commit? then 1 else 0
  }

  lemma CountersStep(c: Config, s: State, e: Event)
    requires Enabled(c, s, e)
    ensures var s' := Apply(c, s, e);
            && Sum(Deadlocks(s'.workers)) == Sum(Deadlocks(s.workers)) + VictimEvents([e])
            && Sum(Dones(s'.workers)) == Sum(Dones(s.workers)) + CommitEvents([e])
  {
    var s' := Apply(c, s, e);
    assert [e][1..] == [];
    assert Deadlocks(s'.workers) == Deadlocks(s.workers)[e.w := s'.workers[e.w].stats.deadlocks];
    SumUpdate(Deadlocks(s.workers), e.w, s'.workers[e.w].stats.deadlocks);
    assert Dones(s'.workers) == Dones(s.workers)[e.w := s'.workers[e.w].stats.done];
    SumUpdate(Dones(s.workers), e.w, s'.workers[e.w].stats.done);
  }

  lemma {:induction false} CountersRun(c: Config, s: State, es: seq<Event>, s': State)
    requires Run(c, s, es, s')
    ensures Sum(Deadlocks(s'.workers)) == Sum(Deadlocks(s.workers)) + VictimEvents(es)
    ensures Sum(Dones(s'.workers)) == Sum(Dones(s.workers)) + CommitEvents(es)
    decreases |es|
  {
    if es != [] {
      assert [es[0]][1..] == [];
      CountersStep(c, s, es[0]);
      CountersRun(c, Apply(c, s, es[0]), es[1..], s');
    }
  }

  /** Over every run the workers have counted exactly the commits, and exactly the aborts of deadlock victims. */
  lemma CountersCount(c: Config, start: seq<int>, requests: seq<seq<Transfer>>, es: seq<Event>, s: State)
    requires Run(c, Start(start, requests), es, s)
    ensures Sum(Dones(s.workers)) == CommitEvents(es) && Sum(Deadlocks(s.workers)) == VictimEvents(es)
  {
    var s0 := Start(start, requests);
    SumBounds(Dones(s0.workers), 0, 0);
    SumBounds(Deadlocks(s0.workers), 0, 0);
    CountersRun(c, s0, es, s);
  }

  // ---------------------------------------------------------------- termination

  /** An upper bound on the steps a worker has left: six per attempt, five attempts per request. */
  function StepsLeft(k: Worker): int {
    30 * |k.todo| - 6 * k.attempt -
      match k.phase
      case Idle => 0 case WantFirst => 1 case WantSecond => 2
      case Debiting => 3 case Crediting => 4 case Committing => 5
  }

  function StepsLeftEach(workers: seq<Worker>): seq<int> {
    seq(|workers|, i requires 0 <= i < |workers| => StepsLeft(workers[i]))
  }

  lemma StepDecreases(c: Config, start: seq<int>, requests: seq<seq<Transfer>>, s: State, e: Event)
    requires Inv(c, start, requests, s) && Enabled(c, s, e)
    ensures Sum(StepsLeftEach(Apply(c, s, e).workers)) <= Sum(StepsLeftEach(s.workers)) - 1
  {
    var s' := Apply(c, s, e);
    var k, k' := s.workers[e.w], s'.workers[e.w];
    assert LoopOk(start, requests[e.w], k);
    assert StepsLeft(k') <= StepsLeft(k) - 1;
    assert StepsLeftEach(s'.workers) == StepsLeftEach(s.workers)[e.w := StepsLeft(k')];
    SumUpdate(StepsLeftEach(s.workers), e.w, StepsLeft(k'));
  }

  lemma StepsLeftNonNegative(c: Config, start: seq<int>, requests: seq<seq<Transfer>>, s: State)
    requires Inv(c, start, requests, s)
    ensures Sum(StepsLeftEach(s.workers)) >= 0
  {
    forall i | 0 <= i < |s.workers| ensures StepsLeft(s.workers[i]) >= 0 {
      assert LoopOk(start, requests[i], s.workers[i]);
    }
    SumNonNegative(StepsLeftEach(s.workers));
  }

  lemma {:induction false} RunBoundedFrom(c: Config, start: seq<int>, requests: seq<seq<Transfer>>,
                                          s: State, es: seq<Event>, s': State)
    requires Inv(c, start, requests, s) && Run(c, s, es, s')
    ensures |es| <= Sum(StepsLeftEach(s.workers))
    decreases |es|
  {
    if es == [] {
      StepsLeftNonNegative(c, start, requests, s);
    } else {
      StepInv(c, start, requests, s, es[0]);
      StepDecreases(c, start, requests, s, es[0]);
      RunBoundedFrom(c, start, requests, Apply(c, s, es[0]), es[1..], s');
    }
  }

  function Lengths(requests: seq<seq<Transfer>>): seq<int> {
    seq(|requests|, i requires 0 <= i < |requests| => 30 * |requests[i]|)
  }

  lemma LeftAtStart(start: seq<int>, requests: seq<seq<Transfer>>)
    ensures StepsLeftEach(Start(start, requests).workers) == Lengths(requests)
  {
  }

  /** Every run ends: it has at most thirty steps per request, whatever the locking order. */
  lemma RunsTerminate(c: Config, start: seq<int>, requests: seq<seq<Transfer>>, es: seq<Event>, s: State)
    requires RowsExist(start, requests) && Run(c, Start(start, requests), es, s)
    ensures |es| <= Sum(Lengths(requests))
  {
    var s0 := Start(start, requests);
    assert Inv(c, start, requests, s0) by { InitInv(c, start, requests); }
    RunBoundedFrom(c, start, requests, s0, es, s);
    LeftAtStart(start, requests);
  }

  // ---------------------------------------------------------------- ordered locking

  /** With ordered locking, a worker that is itself blocked waits for a higher row than its waiters do. */
  lemma WaitsClimb(c: Config, start: seq<int>, requests: seq<seq<Transfer>>, s: State, w: nat, v: nat)
    requires c.ordered && Inv(c, start, requests, s)
    requires WaitsFor(c, s, w, v) && Locking(s, v) && s.owner[Want(c, s.workers[w])] == Some(v)
    requires Blocked(c, s, v)
    ensures Want(c, s.workers[w]) < Want(c, s.workers[v])
  {
    var r := Want(c, s.workers[w]);
    assert s.owner[r] == Some(v) <==> Holds(c, s.workers[v], r);
  }

  lemma {:induction false} PathClimbs(c: Config, start: seq<int>, requests: seq<seq<Transfer>>, s: State, p: seq<nat>)
    requires c.ordered && Inv(c, start, requests, s) && WaitPath(c, s, p)
    requires Blocked(c, s, p[|p| - 1])
    ensures Locking(s, p[0]) && Locking(s, p[|p| - 1])
    ensures Want(c, s.workers[p[0]]) < Want(c, s.workers[p[|p| - 1]])
    decreases |p|
  {
    assert Link(c, s, p, 0);
    if |p| > 2 {
      assert Link(c, s, p, 1);
      var q := p[1..];
      forall i | 0 <= i < |q| - 1 ensures Link(c, s, q, i) {
        assert Link(c, s, p, i + 1);
      }
      PathClimbs(c, start, requests, s, q);
    }
    WaitsClimb(c, start, requests, s, p[0], p[1]);
  }

  lemma NoCycle(c: Config, start: seq<int>, requests: seq<seq<Transfer>>, s: State, p: seq<nat>)
    requires c.ordered && Inv(c, start, requests, s)
    ensures !Cycle(c, s, p)
  {
    if Cycle(c, s, p) {
      assert Link(c, s, p, 0);
      PathClimbs(c, start, requests, s, p);
    }
  }

  /** With ordered locking no reachable waits-for graph has a cycle. */
  lemma OrderedHasNoCycle(c: Config, start: seq<int>, requests: seq<seq<Transfer>>, s: State, p: seq<nat>)
    requires c.ordered && Reachable(c, start, requests, s)
    ensures !Cycle(c, s, p)
  {
    ReachableInv(c, start, requests, s);
    NoCycle(c, start, requests, s, p);
  }

  /** A step that is not an abort. */
  ghost predicate CanStep(c: Config, s: State, w: nat) {
    exists e :: Enabled(c, s, e) && e.w == w && !e.Abort?
  }

  /** A worker with work left either steps or waits for another worker. */
  lemma StepsOrWaits(c: Config, start: seq<int>, requests: seq<seq<Transfer>>, s: State, w: nat)
    requires Inv(c, start, requests, s) && w < |s.workers| && s.workers[w].todo != []
    ensures CanStep(c, s, w) || Blocked(c, s, w)
    ensures Locking(s, w) ==> Want(c, s.workers[w]) < |s.owner|
  {
    var k := s.workers[w];
    assert LoopOk(start, requests[w], k);
    assert k.todo[0] == requests[w][|requests[w]| - |k.todo|];
    match k.phase
    case Idle => assert Enabled(c, s, Begin(w));
    case Debiting => assert Enabled(c, s, Debit(w));
    case Crediting => assert Enabled(c, s, Credit(w));
    case Committing => assert Enabled(c, s, Commit(w));
    case _ =>
      var holder := s.owner[Want(c, k)];
      if holder in {None, Some(w)} {
        assert Enabled(c, s, Lock(w));
      } else {
        assert WaitsFor(c, s, w, holder.value);
      }
  }

  /** A holder is inside a transaction, so it has work left. */
  lemma HolderIsBusy(c: Config, start: seq<int>, requests: seq<seq<Transfer>>, s: State, w: nat, v: nat)
    requires Inv(c, start, requests, s) && WaitsFor(c, s, w, v)
    ensures v < |s.workers| && s.workers[v].todo != []
  {
    var r := Want(c, s.workers[w]);
    assert s.owner[r].value < |s.workers|;
    assert s.owner[r] == Some(v) <==> Holds(c, s.workers[v], r);
  }

  /** Following the waits upward ends at a worker that can step. */
  lemma {:induction false} SomeoneAboveSteps(c: Config, start: seq<int>, requests: seq<seq<Transfer>>, s: State, w: nat)
    returns (v: nat)
    requires c.ordered && Inv(c, start, requests, s) && w < |s.workers| && s.workers[w].todo != []
    ensures CanStep(c, s, v)
    decreases if Locking(s, w) && Want(c, s.workers[w]) < |s.owner| then |s.owner| - Want(c, s.workers[w])
              else |s.owner| + 1
  {
    StepsOrWaits(c, start, requests, s, w);
    if CanStep(c, s, w) {
      v := w;
    } else {
      var x :| WaitsFor(c, s, w, x);
      HolderIsBusy(c, start, requests, s, w, x);
      StepsOrWaits(c, start, requests, s, x);
      if CanStep(c, s, x) {
        v := x;
      } else {
        WaitsClimb(c, start, requests, s, w, x);
        v := SomeoneAboveSteps(c, start, requests, s, x);
      }
    }
  }

  /**
   With ordered locking at read committed: nobody is ever a deadlock victim, every transfer
   commits at its first attempt, and until everything is done some worker can take a step.
   With RunsTerminate: every run that keeps stepping ends with every request done.
   */
  lemma OrderedNeverAborts(c: Config, start: seq<int>, requests: seq<seq<Transfer>>, s: State)
    requires c.ordered && c.readCommitted && Reachable(c, start, requests, s)
    ensures forall w, why :: !Enabled(c, s, Abort(w, why))
    ensures !Finished(s) ==> exists v :: CanStep(c, s, v)
  {
    ReachableInv(c, start, requests, s);
    NeverAborts(c, start, requests, s);
    if !Finished(s) {
      var w :| 0 <= w < |s.workers| && s.workers[w].todo != [];
      var v := SomeoneAboveSteps(c, start, requests, s, w);
    }
  }

  lemma NeverAborts(c: Config, start: seq<int>, requests: seq<seq<Transfer>>, s: State)
    requires c.ordered && c.readCommitted && Inv(c, start, requests, s)
    ensures forall w, why :: !Enabled(c, s, Abort(w, why))
  {
    forall w, why ensures !Enabled(c, s, Abort(w, why)) {
      if Enabled(c, s, Abort(w, why)) {
        var p :| Cycle(c, s, p) && p[0] == w;
        NoCycle(c, start, requests, s, p);
      }
    }
  }

  ghost predicate NoFailures(s: State) {
    forall w :: 0 <= w < |s.workers| ==>
      s.workers[w].attempt == 0 && s.workers[w].stats.deadlocks == 0 && s.workers[w].stats.gaveUp == 0
  }

  lemma {:induction false} NoFailuresOn(c: Config, start: seq<int>, requests: seq<seq<Transfer>>,
                                        s: State, es: seq<Event>, s': State)
    requires c.ordered && c.readCommitted && Inv(c, start, requests, s) && NoFailures(s) && Run(c, s, es, s')
    ensures NoFailures(s')
    decreases |es|
  {
    if es != [] {
      NeverAborts(c, start, requests, s);
      StepInv(c, start, requests, s, es[0]);
      NoFailuresStep(c, s, es[0]);
      NoFailuresOn(c, start, requests, Apply(c, s, es[0]), es[1..], s');
    }
  }

  lemma NoFailuresStep(c: Config, s: State, e: Event)
    requires NoFailures(s) && Enabled(c, s, e) && !e.Abort?
    ensures NoFailures(Apply(c, s, e))
  {
  }

  /** Nothing is ever counted as a deadlock, a retry or a surrender. */
  lemma OrderedRunHasNoFailures(c: Config, start: seq<int>, requests: seq<seq<Transfer>>, es: seq<Event>, s: State)
    requires c.ordered && c.readCommitted && RowsExist(start, requests)
    requires Run(c, Start(start, requests), es, s)
    ensures NoFailures(s)
  {
    InitInv(c, start, requests);
    NoFailuresOn(c, start, requests, Start(start, requests), es, s);
  }

  /** The end of every ordered run: all requests done, no deadlock counted, nobody gave up. */
  lemma OrderedRunsSucceed(c: Config, start: seq<int>, requests: seq<seq<Transfer>>, es: seq<Event>, s: State)
    requires c.ordered && c.readCommitted && RowsExist(start, requests)
    requires Run(c, Start(start, requests), es, s)
    requires forall e :: !Enabled(c, s, e)
    ensures Finished(s) && |s.workers| == |requests|
    ensures forall w :: 0 <= w < |requests| ==> s.workers[w].stats == Stats(|requests[w]|, 0, 0)
    ensures s.balances == CommittedRows(start, s.log) && Sum(s.balances) == Sum(start)
  {
    assert Reachable(c, start, requests, s);
    OrderedNeverAborts(c, start, requests, s);
    OrderedRunHasNoFailures(c, start, requests, es, s);
    MoneyConserved(c, start, requests, s);
  }

  // ---------------------------------------------------------------- argument-order locking

  /** Every unfinished worker waits for another one. */
  ghost predicate AllStuck(c: Config, s: State) {
    !Finished(s) &&
    forall w {:trigger Blocked(c, s, w)} :: 0 <= w < |s.workers| && s.workers[w].todo != [] ==> Blocked(c, s, w)
  }

  /** Whoever is waited for is itself unfinished. */
  ghost predicate HoldersBusy(c: Config, s: State) {
    forall w: nat, v: nat :: WaitsFor(c, s, w, v) ==> v < |s.workers| && s.workers[v].todo != []
  }

  lemma {:induction false} LongWaitPath(c: Config, s: State, w: nat, n: nat) returns (p: seq<nat>)
    requires HoldersBusy(c, s) && AllStuck(c, s)
    requires w < |s.workers| && s.workers[w].todo != []
    ensures |p| == n + 1 && p[0] == w
    ensures forall i :: 0 <= i < |p| ==> p[i] < |s.workers|
    ensures forall i :: 0 <= i < n ==> Link(c, s, p, i)
    decreases n
  {
    if n == 0 {
      p := [w];
    } else {
      assert Blocked(c, s, w);
      var v :| WaitsFor(c, s, w, v);
      var q := LongWaitPath(c, s, v, n - 1);
      p := [w] + q;
      forall i | 0 <= i < n ensures Link(c, s, p, i) {
        if i > 0 {
          assert Link(c, s, q, i - 1);
        }
      }
    }
  }

  lemma RepeatIsCycle(c: Config, s: State, p: seq<nat>, i: nat, j: nat)
    requires i < j < |p| && p[i] == p[j]
    requires forall k :: 0 <= k < |p| - 1 ==> Link(c, s, p, k)
    ensures Cycle(c, s, p[i..j + 1])
  {
    var q := p[i..j + 1];
    forall k | 0 <= k < |q| - 1 ensures Link(c, s, q, k) {
      assert Link(c, s, p, i + k);
    }
  }

  /** When everybody unfinished waits, the waits-for graph has a cycle. */
  lemma StuckMeansCycle(c: Config, start: seq<int>, requests: seq<seq<Transfer>>, s: State)
    requires Reachable(c, start, requests, s) && AllStuck(c, s)
    ensures exists p :: Cycle(c, s, p)
  {
    assert HoldersBusy(c, s) by {
      ReachableInv(c, start, requests, s);
      AllHoldersBusy(c, start, requests, s);
    }
    var w :| 0 <= w < |s.workers| && s.workers[w].todo != [];
    var p := LongWaitPath(c, s, w, |s.workers|);
    PathHasCycle(c, s, p);
  }

  lemma AllHoldersBusy(c: Config, start: seq<int>, requests: seq<seq<Transfer>>, s: State)
    requires Inv(c, start, requests, s)
    ensures HoldersBusy(c, s)
  {
    forall w: nat, v: nat | WaitsFor(c, s, w, v) ensures v < |s.workers| && s.workers[v].todo != [] {
      HolderIsBusy(c, start, requests, s, w, v);
    }
  }

  /** A path longer than there are workers meets one twice. */
  lemma PathHasCycle(c: Config, s: State, p: seq<nat>)
    requires |p| == |s.workers| + 1 && forall i :: 0 <= i < |p| ==> p[i] < |s.workers|
    requires forall i :: 0 <= i < |p| - 1 ==> Link(c, s, p, i)
    ensures exists q :: Cycle(c, s, q)
  {
    Pigeonhole(p, |s.workers|);
    var i, j :| 0 <= i < j < |p| && p[i] == p[j];
    RepeatIsCycle(c, s, p, i, j);
  }

  /**
   The server never gets stuck for good, in either locking order: some worker can step, or
   a deadlock victim can be aborted.
   */
  lemma AlwaysProgress(c: Config, start: seq<int>, requests: seq<seq<Transfer>>, s: State)
    requires Reachable(c, start, requests, s) && !Finished(s)
    ensures exists e :: Enabled(c, s, e)
  {
    ReachableInv(c, start, requests, s);
    if AllStuck(c, s) {
      StuckMeansCycle(c, start, requests, s);
      var p :| Cycle(c, s, p);
      assert Link(c, s, p, 0);
      assert Enabled(c, s, Abort(p[0], DeadlockVictim));
    } else {
      var w :| 0 <= w < |s.workers| && s.workers[w].todo != [] && !Blocked(c, s, w);
      StepsOrWaits(c, start, requests, s, w);
      var e :| Enabled(c, s, e) && e.w == w && !e.Abort?;
    }
  }

  /** Aborting a worker hands the row it held to whoever waits for it: the waiter can now lock. */
  lemma AbortReleasesWaiter(c: Config, start: seq<int>, requests: seq<seq<Transfer>>, s: State, v: nat, why: Outcome)
    requires Reachable(c, start, requests, s) && Enabled(c, s, Abort(v, why)) && why == DeadlockVictim
    ensures exists w :: WaitsFor(c, s, w, v) && Enabled(c, Apply(c, s, Abort(v, why)), Lock(w))
  {
    var p :| Cycle(c, s, p) && p[0] == v;
    var w := p[|p| - 2];
    assert Link(c, s, p, |p| - 2);
    var s' := Apply(c, s, Abort(v, why));
    assert s'.workers[w] == s.workers[w];
    assert Enabled(c, s', Lock(w));
  }

  /** The schedule that deadlocks argument-order locking, for any two distinct accounts. */
  lemma ArgumentOrderDeadlocks(start: seq<int>, x: nat, y: nat, cents: int) returns (s: State)
    requires x < |start| && y < |start| && x != y
    ensures Reachable(Config(false, true), start, [[Transfer(x, y, cents)], [Transfer(y, x, cents)]], s)
    ensures AllStuck(Config(false, true), s)
  {
    var c := Config(false, true);
    var requests := [[Transfer(x, y, cents)], [Transfer(y, x, cents)]];
    var s0 := Start(start, requests);
    var s2 := BothBegin(c, s0);
    s := BothLock(c, s2);
    assert Run(c, s0, [Begin(0), Begin(1)] + [Lock(0), Lock(1)], s) by {
      RunJoin(c, s0, [Begin(0), Begin(1)], s2, [Lock(0), Lock(1)], s);
    }
    assert WaitsFor(c, s, 0, 1) && WaitsFor(c, s, 1, 0);
  }

  lemma BothBegin(c: Config, s: State) returns (t: State)
    requires |s.workers| == 2 && forall w :: 0 <= w < 2 ==> s.workers[w].todo != [] && s.workers[w].phase == Idle
    ensures Run(c, s, [Begin(0), Begin(1)], t)
    ensures t == s.(workers := [s.workers[0].(phase := WantFirst), s.workers[1].(phase := WantFirst)])
  {
    var s1 := Apply(c, s, Begin(0));
    t := Apply(c, s1, Begin(1));
  }

  /** Each takes its first row, and the first rows differ. */
  lemma BothLock(c: Config, s: State) returns (t: State)
    requires |s.workers| == 2 && forall w :: 0 <= w < 2 ==> s.workers[w].todo != [] && s.workers[w].phase == WantFirst
    requires var r0, r1 := Want(c, s.workers[0]), Want(c, s.workers[1]);
             r0 != r1 && r0 < |s.owner| && r1 < |s.owner| && s.owner[r0] == s.owner[r1] == None
    ensures Run(c, s, [Lock(0), Lock(1)], t)
    ensures t == s.(owner := s.owner[Want(c, s.workers[0]) := Some(0)][Want(c, s.workers[1]) := Some(1)],
                    workers := [s.workers[0].(phase := WantSecond), s.workers[1].(phase := WantSecond)])
  {
    var s1 := Apply(c, s, Lock(0));
    t := Apply(c, s1, Lock(1));
  }

  lemma {:induction false} RunJoin(c: Config, s: State, es: seq<Event>, m: State, fs: seq<Event>, s': State)
    requires Run(c, s, es, m) && Run(c, m, fs, s')
    ensures Run(c, s, es + fs, s')
    decreases |es|
  {
    if es == [] {
      assert es + fs == fs;
    } else {
      RunJoin(c, Apply(c, s, es[0]), es[1..], m, fs, s');
      assert (es + fs)[1..] == es[1..] + fs;
    }
  }

  // ---------------------------------------------------------------- the same steps, in place

  /** The account rows, their lock holders and the workers, all overwritten where they are. */
  class Bank {
    const c: Config
    const balances: array<int>
    const owner: array<Option<nat>>
    const workers: array<Worker>
    var log: seq<Transfer>

    ghost function View(): State
      reads this, balances, owner, workers
    {
      State(balances[..], owner[..], workers[..], log)
    }

    constructor (c: Config, start: seq<int>, requests: seq<seq<Transfer>>)
      ensures this.c == c && View() == Start(start, requests)
      ensures fresh(balances) && fresh(owner) && fresh(workers)
    {
      this.c := c;
      balances := new int[|start|](i requires 0 <= i < |start| => start[i]);
      owner := new Option<nat>[|start|](_ => None);
      workers := new Worker[|requests|](i requires 0 <= i < |requests| => Fresh(requests[i]));
      log := [];
      new;
      assert owner[..] == Start(start, requests).owner && workers[..] == Start(start, requests).workers;
    }

    /** Rollback writes the row images back, newest first. */
    method RestoreRows(undo: seq<(nat, int)>)
      modifies balances
      ensures balances[..] == Restore(old(balances[..]), undo)
    {
      ghost var rest := undo;
      for i := 0 to |undo|
        invariant |rest| == |undo| - i && forall k :: 0 <= k < |rest| ==> rest[k] == undo[i + k]
        invariant Restore(balances[..], rest) == Restore(old(balances[..]), undo)
      {
        var (row, was) := undo[i];
        if row < balances.Length {
          ghost var before := balances[..];
          balances[row] := was;
          assert balances[..] == before[row := was];
        }
        rest := rest[1..];
      }
    }

    method Lock(w: nat)
      requires Enabled(c, View(), Event.Lock(w))
      modifies owner, workers
      ensures View() == Apply(c, old(View()), Event.Lock(w))
    {
      var k := workers[w];
      owner[Want(c, k)] := Some(w);
      workers[w] := k.(phase := if k.phase == WantFirst then WantSecond else Debiting);
    }

    /** One UPDATE of a balance, its image kept for a rollback. */
    method AddTo(w: nat, row: nat, cents: int, next: Phase)
      requires w < workers.Length && row < balances.Length
      modifies balances, workers
      ensures balances[..] == old(balances[..])[row := old(balances[row]) + cents]
      ensures var k := old(workers[w]);
              workers[..] == old(workers[..])[w := k.(phase := next, undo := [(row, old(balances[row]))] + k.undo)]
    {
      var k := workers[w];
      workers[w] := k.(phase := next, undo := [(row, balances[row])] + k.undo);
      balances[row] := balances[row] + cents;
    }

    method Finish(w: nat, outcome: Outcome)
      requires Enabled(c, View(), if outcome == Committed then Commit(w) else Abort(w, outcome))
      modifies this, balances, owner, workers
      ensures View() == Apply(c, old(View()), if outcome == Committed then Commit(w) else Abort(w, outcome))
    {
      var k := workers[w];
      if outcome == Committed {
        log := [k.todo[0]] + log;
      } else {
        RestoreRows(k.undo);
      }
      ReleaseInPlace(owner, w);
      workers[w] := AfterAttempt(k, outcome);
    }

    /** Any schedule of steps, executed on the rows, is a run of the step system. */
    method Execute(es: seq<Event>, ghost final: State)
      requires Run(c, View(), es, final)
      modifies this, balances, owner, workers
      ensures View() == final
    {
      for i := 0 to |es|
        invariant Run(c, View(), es[i..], final)
      {
        assert es[i..][0] == es[i] && es[i..][1..] == es[i + 1..];
        Do(es[i]);
      }
    }

    method Do(e: Event)
      requires Enabled(c, View(), e)
      modifies this, balances, owner, workers
      ensures View() == Apply(c, old(View()), e)
    {
      match e
      case Begin(w) => workers[w] := workers[w].(phase := WantFirst);
      case Lock(w) => this.Lock(w);
      case Debit(w) => AddTo(w, workers[w].todo[0].a, -workers[w].todo[0].cents, Crediting);
      case Credit(w) => AddTo(w, workers[w].todo[0].b, workers[w].todo[0].cents, Committing);
      case Commit(w) => Finish(w, Committed);
      case Abort(w, why) => Finish(w, why);
    }
  }
}
