/**
 Reading one's own writes behind a lagging replica. Sessions write on the primary and later read each row
 back, from the primary or the replica as their strategy decides; the log is received and replayed in the meantime.

 A log position is the number of records before it. A row is visible on a server once that server has its commit
 record: the primary as soon as it is written, the replica when it has been replayed.
 */
module LsnRouting {
  import opened Common

  datatype Record = Insert(row: nat) | Commit(row: nat) | Other

  datatype Strategy = ReplicaOnly | Sticky | Lsn | Wait

  /**
   The strategy, and two ways to get the token wrong: compare it with what was received, or capture it before the
   commit.
   */
  datatype Variant = Variant(strategy: Strategy, window: real, checkReceived: bool, captureEarly: bool)

  datatype Phase = Idle | Inserted(row: nat) | Captured(row: nat, token: nat) | Committed(row: nat, at: real)

  /** A router: the rows it has written, and of its latest write the routing token, if it takes one, and the time. */
  datatype Session = Session(phase: Phase, rows: seq<nat>, token: Option<nat>, lastWriteAt: real)

  datatype State = State(
    wal: seq<Record>,
    received: nat,
    replayed: nat,
    nextRow: nat,
    sessions: seq<Session>)

  datatype Event =
    | Begin(i: nat)
    | Finish(i: nat, now: real)
    | Capture(i: nat)
    | Elsewhere
    | Receive(upto: nat)
    | Replay(upto: nat)

  function TakesToken(v: Variant): bool { v.strategy == Lsn || v.strategy == Wait }

  function PhaseOf(s: State, i: nat): Phase {
    if i < |s.sessions| then s.sessions[i].phase else Idle
  }

  /** The session's insert is waiting for its commit. */
  predicate MayFinish(v: Variant, p: Phase) {
    if v.captureEarly then p.Captured? else p.Inserted?
  }

  predicate MayCapture(v: Variant, p: Phase) {
    if v.captureEarly then p.Inserted? else p.Committed?
  }

  predicate Enabled(v: Variant, s: State, e: Event) {
    match e
    case Begin(i) => i < |s.sessions| && s.sessions[i].phase.Idle?
    case Finish(i, _) => MayFinish(v, PhaseOf(s, i))
    case Capture(i) => MayCapture(v, PhaseOf(s, i))
    case Elsewhere => true
    case Receive(upto) => s.received <= upto <= |s.wal|
    case Replay(upto) => s.replayed <= upto <= s.received
  }

  function SetPhase(s: State, i: nat, p: Phase): State
    requires i < |s.sessions|
  {
    s.(sessions := s.sessions[i := s.sessions[i].(phase := p)])
  }

  /** The write is over, and the session remembers it. */
  function Remember(s: State, i: nat, row: nat, token: Option<nat>, at: real): State
    requires i < |s.sessions|
  {
    s.(sessions := s.sessions[i := Session(Idle, s.sessions[i].rows + [row], token, at)])
  }

  function Apply(v: Variant, s: State, e: Event): State
    requires Enabled(v, s, e)
  {
    match e
    case Begin(i) =>
      SetPhase(s.(wal := s.wal + [Insert(s.nextRow)], nextRow := s.nextRow + 1), i, Inserted(s.nextRow))
    case Finish(i, now) =>
      var p := s.sessions[i].phase;
      var t := s.(wal := s.wal + [Commit(p.row)]);
      if v.captureEarly then Remember(t, i, p.row, Some(p.token), now) else SetPhase(t, i, Committed(p.row, now))
    case Capture(i) =>
      var p := s.sessions[i].phase;
      if v.captureEarly then SetPhase(s, i, Captured(p.row, |s.wal|))
      else Remember(s, i, p.row, if TakesToken(v) then Some(|s.wal|) else None, p.at)
    case Elsewhere => s.(wal := s.wal + [Other])
    case Receive(upto) => s.(received := upto)
    case Replay(upto) => s.(replayed := upto)
  }

  predicate Run(v: Variant, s: State, es: seq<Event>, s': State)
    decreases |es|
  {
    if es == [] then s == s' else Enabled(v, s, es[0]) && Run(v, Apply(v, s, es[0]), es[1..], s')
  }

  function Start(sessions: nat): State {
    State([], 0, 0, 0, seq(sessions, _ => Session(Idle, [], None, 0.0)))
  }

  ghost predicate Reachable(v: Variant, s: State) {
    exists es: seq<Event>, n: nat :: Run(v, Start(n), es, s)
  }

  // ---------------------------------------------------------------- reading

  predicate OnPrimary(s: State, row: nat) { Commit(row) in s.wal }

  predicate OnReplica(s: State, row: nat)
    requires s.replayed <= |s.wal|
  {
    Commit(row) in s.wal[..s.replayed]
  }

  /** How far the replica is taken to be. */
  function Reached(v: Variant, s: State): nat { if v.checkReceived then s.received else s.replayed }

  /** A read by this session may proceed: `wait` blocks until the replica has replayed the token. */
  predicate MayRead(v: Variant, s: State, x: Session) {
    v.strategy == Wait ==> x.token.Some? && x.token.value <= Reached(v, s)
  }

  /** Where the router sends it. */
  predicate ToReplica(v: Variant, s: State, x: Session, now: real) {
    match v.strategy
    case ReplicaOnly => true
    case Sticky => (now - x.lastWriteAt) * 1000.0 >= v.window
    case Lsn => x.token.None? || x.token.value <= Reached(v, s)
    case Wait => true
  }

  /** Whether it finds the row there. */
  predicate Found(v: Variant, s: State, x: Session, row: nat, now: real)
    requires s.replayed <= |s.wal|
  {
    if ToReplica(v, s, x, now) then OnReplica(s, row) else OnPrimary(s, row)
  }

  /** Session i wrote the row. */
  predicate Wrote(s: State, i: nat, row: nat) {
    i < |s.sessions| && row in s.sessions[i].rows
  }

  // ---------------------------------------------------------------- what every step keeps

  /** A row of this session was committed, and the latest token, if taken after the commit, lies beyond its record. */
  ghost predicate RowOk(v: Variant, s: State, x: Session, row: nat) {
    OnPrimary(s, row) && (x.token.Some? && !v.captureEarly ==> Commit(row) in s.wal[..Min(x.token.value, |s.wal|)])
  }

  ghost predicate PhaseOk(s: State, p: Phase) {
    match p
    case Idle => true
    case Inserted(_) => true
    case Captured(_, token) => token <= |s.wal|
    case Committed(row, _) => OnPrimary(s, row)
  }

  ghost predicate SessionOk(v: Variant, s: State, x: Session) {
    && PhaseOk(s, x.phase) && (x.token.Some? ==> x.token.value <= |s.wal|)
    && (x.rows != [] && (TakesToken(v) || v.captureEarly) ==> x.token.Some?)
    && forall row <- x.rows :: RowOk(v, s, x, row)
  }

  ghost predicate Inv(v: Variant, s: State) {
    && s.replayed <= s.received <= |s.wal|
    && forall i :: 0 <= i < |s.sessions| ==> SessionOk(v, s, s.sessions[i])
  }

  /** More log leaves everything said of a session true. */
  lemma MoreLog(v: Variant, s: State, t: State, x: Session)
    requires SessionOk(v, s, x) && s.wal <= t.wal
    ensures SessionOk(v, t, x)
  {
    forall row <- x.rows ensures RowOk(v, t, x, row) {
      assert RowOk(v, s, x, row);
      if x.token.Some? {
        assert t.wal[..x.token.value] == s.wal[..x.token.value];
      }
    }
  }

  lemma RememberedOk(v: Variant, s: State, x: Session, row: nat, token: Option<nat>, at: real)
    requires SessionOk(v, s, x) && OnPrimary(s, row)
    requires if v.captureEarly then token.Some? && token.value <= |s.wal|
             else token == if TakesToken(v) then Some(|s.wal|) else None
    ensures SessionOk(v, s, Session(Idle, x.rows + [row], token, at))
  {
    var y := Session(Idle, x.rows + [row], token, at);
    assert s.wal[..|s.wal|] == s.wal;
    forall r <- y.rows ensures RowOk(v, s, y, r) {
      assert r == row || RowOk(v, s, x, r);
    }
  }

  /** The log only grows, and what the acting session becomes is all right. */
  lemma ActorOk(v: Variant, s: State, e: Event)
    requires Inv(v, s) && Enabled(v, s, e) && (e.Begin? || e.Finish? || e.Capture?)
    ensures SessionOk(v, Apply(v, s, e), Apply(v, s, e).sessions[e.i])
  {
    var t, x := Apply(v, s, e), s.sessions[e.i];
    MoreLog(v, s, t, x);
    if e.Finish? {
      assert t.wal[|s.wal|] == Commit(x.phase.row);
      if v.captureEarly {
        RememberedOk(v, t, x, x.phase.row, Some(x.phase.token), e.now);
      }
    } else if e.Capture? && !v.captureEarly {
      RememberedOk(v, s, x, x.phase.row, if TakesToken(v) then Some(|s.wal|) else None, x.phase.at);
    }
  }

  lemma StepKeepsInv(v: Variant, s: State, e: Event)
    requires Inv(v, s) && Enabled(v, s, e)
    ensures Inv(v, Apply(v, s, e)) && s.wal <= Apply(v, s, e).wal
  {
    var t := Apply(v, s, e);
    forall i | 0 <= i < |t.sessions| ensures SessionOk(v, t, t.sessions[i]) {
      if (e.Begin? || e.Finish? || e.Capture?) && i == e.i {
        ActorOk(v, s, e);
      } else {
        MoreLog(v, s, t, s.sessions[i]);
      }
    }
  }

  lemma {:induction false} RunKeepsInv(v: Variant, s: State, es: seq<Event>, s': State)
    requires Inv(v, s) && Run(v, s, es, s')
    ensures Inv(v, s') && s.wal <= s'.wal
    decreases |es|
  {
    if es != [] {
      StepKeepsInv(v, s, es[0]);
      RunKeepsInv(v, Apply(v, s, es[0]), es[1..], s');
    }
  }

  lemma ReachableInv(v: Variant, s: State)
    requires Reachable(v, s)
    ensures Inv(v, s)
  {
    var es: seq<Event>, n: nat :| Run(v, Start(n), es, s);
    RunKeepsInv(v, Start(n), es, s);
  }

  // ---------------------------------------------------------------- who reads their own writes

  lemma RowIsOk(v: Variant, s: State, i: nat, row: nat)
    requires Reachable(v, s) && Wrote(s, i, row)
    ensures s.replayed <= s.received <= |s.wal| && SessionOk(v, s, s.sessions[i]) && RowOk(v, s, s.sessions[i], row)
  {
    ReachableInv(v, s);
    assert SessionOk(v, s, s.sessions[i]);
  }

  /** A row written was committed, so the primary always has it: a read is stale only from the replica. */
  lemma StaleExactly(v: Variant, s: State, i: nat, row: nat, now: real)
    requires Reachable(v, s) && Wrote(s, i, row)
    ensures s.replayed <= |s.wal|
    ensures var x := s.sessions[i];
            && (!Found(v, s, x, row, now) <==> ToReplica(v, s, x, now) && !OnReplica(s, row))
            && (v.strategy == Sticky ==>
                 (!Found(v, s, x, row, now) <==> (now - x.lastWriteAt) * 1000.0 >= v.window && !OnReplica(s, row)))
  {
    RowIsOk(v, s, i, row);
  }

  /** What the replica has when it has the token of a session. */
  lemma TokenCovers(v: Variant, s: State, x: Session, row: nat)
    requires RowOk(v, s, x, row) && !v.captureEarly && x.token.Some? && x.token.value <= s.replayed <= |s.wal|
    ensures OnReplica(s, row)
  {
    assert s.wal[..x.token.value] == s.wal[..s.replayed][..x.token.value];
  }

  /** With a token taken after the commit and compared with what was replayed, every read of an own row finds it. */
  lemma TokenReadsOwnWrite(v: Variant, s: State, i: nat, row: nat, now: real)
    requires Reachable(v, s) && Wrote(s, i, row) && MayRead(v, s, s.sessions[i])
    requires TakesToken(v) && !v.checkReceived && !v.captureEarly
    ensures s.replayed <= |s.wal| && Found(v, s, s.sessions[i], row, now)
  {
    RowIsOk(v, s, i, row);
    if ToReplica(v, s, s.sessions[i], now) {
      TokenCovers(v, s, s.sessions[i], row);
    }
  }

  /**
   When nothing was logged between commit and token, `lsn` leaves the replica exactly when the replica would be
   stale.
   */
  lemma LsnIsPrecise(v: Variant, s: State, i: nat, row: nat, now: real, p: nat)
    requires v == Variant(Lsn, v.window, false, false) && Reachable(v, s) && Wrote(s, i, row)
    requires p < |s.wal| && s.wal[p] == Commit(row) && s.sessions[i].token == Some(p + 1)
    requires forall k :: 0 <= k < p ==> s.wal[k] != Commit(row)
    ensures s.replayed <= |s.wal|
    ensures !ToReplica(v, s, s.sessions[i], now) <==> !OnReplica(s, row)
  {
    RowIsOk(v, s, i, row);
    if s.replayed > p {
      assert s.wal[..s.replayed][p] == Commit(row);
    }
  }

  /** A replica that has replayed everything logged serves every read, but for `sticky` inside its window. */
  lemma CaughtUpServesAll(v: Variant, s: State, i: nat, now: real)
    requires Reachable(v, s) && s.replayed == |s.wal| && i < |s.sessions|
    ensures ToReplica(v, s, s.sessions[i], now) <==>
            v.strategy != Sticky || (now - s.sessions[i].lastWriteAt) * 1000.0 >= v.window
    ensures s.sessions[i].rows != [] ==> MayRead(v, s, s.sessions[i])
  {
    ReachableInv(v, s);
    assert SessionOk(v, s, s.sessions[i]);
  }

  ghost predicate StaleRead(v: Variant, s: State, i: nat, row: nat, now: real) {
    && Reachable(v, s) && Wrote(s, i, row) && MayRead(v, s, s.sessions[i])
    && s.replayed <= |s.wal| && !Found(v, s, s.sessions[i], row, now)
  }

  lemma {:induction false} RunSnoc(v: Variant, s: State, es: seq<Event>, s': State, e: Event)
    requires Run(v, s, es, s') && Enabled(v, s', e)
    ensures Run(v, s, es + [e], Apply(v, s', e))
    decreases |es|
  {
    if es == [] {
      assert ([] + [e])[1..] == [];
      assert Run(v, Apply(v, s, e), [], Apply(v, s, e));
    } else {
      RunSnoc(v, Apply(v, s, es[0]), es[1..], s', e);
      assert (es + [e])[1..] == es[1..] + [e];
    }
  }

  lemma ReachableStep(v: Variant, s: State, e: Event)
    requires Reachable(v, s) && Enabled(v, s, e)
    ensures Reachable(v, Apply(v, s, e))
  {
    var es: seq<Event>, n: nat :| Run(v, Start(n), es, s);
    RunSnoc(v, Start(n), es, s, e);
  }

  /** A session alone that has inserted its first row. */
  lemma FirstInsert(v: Variant) returns (s: State)
    ensures Reachable(v, s) && s == State([Insert(0)], 0, 0, 1, [Session(Inserted(0), [], None, 0.0)])
  {
    assert Run(v, Start(1), [], Start(1));
    ReachableStep(v, Start(1), Begin(0));
    s := Apply(v, Start(1), Begin(0));
  }

  /** A session alone whose first row is committed and, with its token taken after that, remembered. */
  lemma FirstWrite(v: Variant) returns (s: State)
    requires !v.captureEarly
    ensures Reachable(v, s) && s.wal == [Insert(0), Commit(0)] && s.received == s.replayed == 0
    ensures s.sessions == [Session(Idle, [0], if TakesToken(v) then Some(2) else None, 0.0)]
  {
    s := FirstInsert(v);
    ReachableStep(v, s, Finish(0, 0.0));
    s := Apply(v, s, Finish(0, 0.0));
    ReachableStep(v, s, Capture(0));
    s := Apply(v, s, Capture(0));
    assert [] + [0] == [0] && s.sessions[0].rows == [0];
  }

  /** One session, whose row is received but not replayed. */
  lemma StaleAfterCommit(v: Variant) returns (s: State)
    requires !v.captureEarly && (TakesToken(v) ==> v.checkReceived)
    ensures StaleRead(v, s, 0, 0, v.window / 1000.0)
  {
    s := FirstWrite(v);
    ReachableStep(v, s, Receive(2));
    s := Apply(v, s, Receive(2));
    assert 0 in s.sessions[0].rows;
  }

  /** A session alone whose token was captured before the commit. */
  lemma EarlyWrite(v: Variant) returns (s: State)
    requires v.captureEarly
    ensures Reachable(v, s) && s.wal == [Insert(0), Commit(0)] && s.received == s.replayed == 0
    ensures s.sessions == [Session(Idle, [0], Some(1), 0.0)]
  {
    s := FirstInsert(v);
    ReachableStep(v, s, Capture(0));
    s := Apply(v, s, Capture(0));
    ReachableStep(v, s, Finish(0, 0.0));
    s := Apply(v, s, Finish(0, 0.0));
    assert [] + [0] == [0] && s.sessions[0].rows == [0];
  }

  /** One session, whose token the replica passes before it has the commit. */
  lemma StaleEarlyToken(v: Variant) returns (s: State)
    requires v.captureEarly
    ensures StaleRead(v, s, 0, 0, v.window / 1000.0)
  {
    s := EarlyWrite(v);
    ReachableStep(v, s, Receive(1));
    s := Apply(v, s, Receive(1));
    ReachableStep(v, s, Replay(1));
    s := Apply(v, s, Replay(1));
    assert 0 in s.sessions[0].rows;
    assert s.wal[..1] == [Insert(0)];
  }

  /** No interleaving of any number of sessions gives a stale read: exactly the token strategies, done right. */
  lemma SafeExactly(v: Variant)
    ensures (forall s, i, row, now :: !StaleRead(v, s, i, row, now)) <==>
            TakesToken(v) && !v.checkReceived && !v.captureEarly
  {
    if TakesToken(v) && !v.checkReceived && !v.captureEarly {
      forall s, i, row, now ensures !StaleRead(v, s, i, row, now) {
        if StaleRead(v, s, i, row, now) {
          TokenReadsOwnWrite(v, s, i, row, now);
        }
      }
    } else if v.captureEarly {
      var s := StaleEarlyToken(v);
      assert StaleRead(v, s, 0, 0, v.window / 1000.0);
    } else {
      var s := StaleAfterCommit(v);
      assert StaleRead(v, s, 0, 0, v.window / 1000.0);
    }
  }

  // ---------------------------------------------------------------- the same steps, in place

  /** Another session's step, or the servers' own. */
  predicate NotBy(e: Event, i: nat) {
    (e.Begin? || e.Finish? || e.Capture?) ==> e.i != i
  }

  /** Meanwhile session i stays as it is, and nothing logged, received or replayed is taken back. */
  lemma {:induction false} OthersRun(v: Variant, s: State, es: seq<Event>, s': State, i: nat)
    requires Inv(v, s) && Run(v, s, es, s') && i < |s.sessions| && forall e <- es :: NotBy(e, i)
    ensures Inv(v, s') && i < |s'.sessions| && s'.sessions[i] == s.sessions[i]
    ensures s.wal <= s'.wal && s.replayed <= s'.replayed
    decreases |es|
  {
    if es != [] {
      StepKeepsInv(v, s, es[0]);
      assert NotBy(es[0], i);
      OthersRun(v, Apply(v, s, es[0]), es[1..], s', i);
    }
  }

  /** The primary, the replica and the sessions, overwritten where they are. */
  class Servers {
    const v: Variant
    var wal: seq<Record>
    var received: nat
    var replayed: nat
    var nextRow: nat
    const sessions: array<Session>

    ghost function View(): State
      reads this, sessions
    {
      State(wal, received, replayed, nextRow, sessions[..])
    }

    constructor (v: Variant, n: nat)
      ensures this.v == v && View() == Start(n) && fresh(sessions)
    {
      this.v := v;
      wal, received, replayed, nextRow := [], 0, 0, 0;
      sessions := new Session[n](_ => Session(Idle, [], None, 0.0));
      new;
      assert sessions[..] == Start(n).sessions;
    }

    method FinishOne(i: nat, now: real)
      requires Enabled(v, View(), Finish(i, now))
      modifies this, sessions
      ensures View() == Apply(v, old(View()), Finish(i, now))
    {
      var x := sessions[i];
      wal := wal + [Commit(x.phase.row)];
      sessions[i] := if v.captureEarly then Session(Idle, x.rows + [x.phase.row], Some(x.phase.token), now)
        else x.(phase := Committed(x.phase.row, now));
    }

    method CaptureOne(i: nat)
      requires Enabled(v, View(), Capture(i))
      modifies sessions
      ensures View() == Apply(v, old(View()), Capture(i))
    {
      var x := sessions[i];
      sessions[i] := if v.captureEarly then x.(phase := Captured(x.phase.row, |wal|))
        else Session(Idle, x.rows + [x.phase.row], if TakesToken(v) then Some(|wal|) else None, x.phase.at);
    }

    method Do(e: Event)
      requires Enabled(v, View(), e)
      modifies this, sessions
      ensures View() == Apply(v, old(View()), e)
    {
      match e
      case Begin(i) =>
        wal, nextRow := wal + [Insert(nextRow)], nextRow + 1;
        sessions[i] := sessions[i].(phase := Inserted(nextRow - 1));
      case Finish(i, now) => FinishOne(i, now);
      case Capture(i) => CaptureOne(i);
      case Elsewhere => wal := wal + [Other];
      case Receive(upto) => received := upto;
      case Replay(upto) => replayed := upto;
    }

    /** Any schedule of steps, executed in place, is a run of the step system. */
    method Execute(es: seq<Event>, ghost final: State)
      requires Run(v, View(), es, final)
      modifies this, sessions
      ensures View() == final
    {
      for i := 0 to |es|
        invariant Run(v, View(), es[i..], final)
      {
        assert es[i..][0] == es[i] && es[i..][1..] == es[i + 1..];
        Do(es[i]);
      }
    }
  }

  /** The INSERT and its autocommit. */
  function Inserting(v: Variant, s: State, i: nat, now: real): State
    requires i < |s.sessions| && s.sessions[i].phase.Idle? && !v.captureEarly
  {
    Apply(v, Apply(v, s, Begin(i)), Finish(i, now))
  }

  /** Session i of the laboratory, with its counters. */
  class Router {
    const servers: Servers
    const i: nat
    var readsOnReplica: nat
    var readsOnPrimary: nat

    ghost predicate Valid()
      reads this, servers, servers.sessions
    {
      && i < servers.sessions.Length && servers.sessions[i].phase.Idle?
      && !servers.v.captureEarly && Inv(servers.v, servers.View())
    }

    ghost function Me(): Session
      reads this, servers, servers.sessions
      requires Valid()
    {
      servers.sessions[i]
    }

    /** The token covers this row: the row's commit lies before it in the log. */
    ghost predicate Covers(row: nat)
      reads this, servers, servers.sessions
      requires Valid()
    {
      Me().token.Some? && Me().token.value <= |servers.wal| && Commit(row) in servers.wal[..Me().token.value]
    }

    constructor (servers: Servers, i: nat)
      requires i < servers.sessions.Length && servers.sessions[i].phase.Idle?
      requires !servers.v.captureEarly && Inv(servers.v, servers.View())
      ensures Valid() && this.servers == servers && this.i == i && readsOnReplica == 0 && readsOnPrimary == 0
    {
      this.servers, this.i := servers, i;
      readsOnReplica, readsOnPrimary := 0, 0;
    }

    /** The write, with whatever happens between its commit and the moment the token is asked for. */
    method WriteRow(now: real, meanwhile: seq<Event>, ghost mid: State) returns (row: nat)
      requires Valid() && Run(servers.v, Inserting(servers.v, servers.View(), i, now), meanwhile, mid)
      requires forall e <- meanwhile :: NotBy(e, i)
      modifies servers, servers.sessions
      ensures Valid() && Enabled(servers.v, mid, Capture(i)) && servers.View() == Apply(servers.v, mid, Capture(i))
      ensures row == old(servers.nextRow) && Me().rows == old(Me().rows) + [row] && Me().lastWriteAt == now
      ensures TakesToken(servers.v) ==> Covers(row)
    {
      ghost var s := servers.View();
      InsertKeeps(servers.v, s, i, now);
      OthersRun(servers.v, Inserting(servers.v, s, i, now), meanwhile, mid, i);
      StepKeepsInv(servers.v, mid, Capture(i));
      row := servers.nextRow;
      servers.Do(Begin(i));
      servers.Do(Finish(i, now));
      servers.Execute(meanwhile, mid);
      servers.Do(Capture(i));
      assert SessionOk(servers.v, servers.View(), Me()) && row in Me().rows;
    }

    method Ask(row: nat, replica: bool) returns (found: bool)
      requires Valid()
      modifies this
      ensures Valid() && found == if replica then OnReplica(servers.View(), row) else OnPrimary(servers.View(), row)
      ensures readsOnReplica == old(readsOnReplica) + if replica then 1 else 0
      ensures readsOnPrimary == old(readsOnPrimary) + if replica then 0 else 1
    {
      if replica {
        readsOnReplica := readsOnReplica + 1;
        return Commit(row) in servers.wal[..servers.replayed];
      }
      readsOnPrimary := readsOnPrimary + 1;
      return Commit(row) in servers.wal;
    }

    /** Where to send a read now. */
    method Route(now: real) returns (replica: bool)
      requires Valid()
      ensures replica == ToReplica(servers.v, servers.View(), Me(), now)
    {
      var x := servers.sessions[i];
      match servers.v.strategy
      case ReplicaOnly => return true;
      case Sticky => return (now - x.lastWriteAt) * 1000.0 >= servers.v.window;
      case Lsn =>
        return x.token.None? || x.token.value <= if servers.v.checkReceived then servers.received else servers.replayed;
      case Wait => return true;
    }

    /**
     The read, with whatever happens while `wait` blocks, and between the check and the query. `wait` gives up, without
     an answer, when the token has not been replayed by the statement timeout.
     */
    method ReadRow(row: nat, now: real, waiting: seq<Event>, ghost mid: State,
                   meanwhile: seq<Event>, ghost final: State)
      returns (found: Option<bool>)
      requires Valid() && row in Me().rows && forall e <- waiting + meanwhile :: NotBy(e, i)
      requires Run(servers.v, servers.View(), waiting, mid) && Run(servers.v, mid, meanwhile, final)
      requires servers.v.strategy != Wait ==> waiting == []
      modifies this, servers, servers.sessions
      ensures Valid() && Me() == old(Me())
      // `wait` gives up or not; the query goes where the check at `mid` sent it and meets the servers at `final`
      ensures found.None? <==> !MayRead(servers.v, mid, Me())
      ensures servers.View() == if found.None? then mid else final
      ensures found.Some? ==>
                found.value == if ToReplica(servers.v, mid, Me(), now) then OnReplica(final, row)
                               else OnPrimary(final, row)
      // a token compared with what was replayed always finds the row
      ensures TakesToken(servers.v) && !servers.v.checkReceived ==> found != Some(false)
      // every read that is answered is counted once, on the server that answered it
      ensures found.None? ==> readsOnReplica == old(readsOnReplica) && readsOnPrimary == old(readsOnPrimary)
      ensures found.Some? ==> readsOnReplica + readsOnPrimary == old(readsOnReplica + readsOnPrimary) + 1
      ensures found.Some? ==> (readsOnReplica > old(readsOnReplica) <==> ToReplica(servers.v, mid, Me(), now))
    {
      ghost var x := Me();
      BothRun(servers.v, servers.View(), waiting, mid, meanwhile, final, i);
      servers.Execute(waiting, mid);
      if servers.v.strategy == Wait {
        var token := servers.sessions[i].token;
        if token.None? || token.value > if servers.v.checkReceived then servers.received else servers.replayed {
          return None;
        }
      }
      var replica := Route(now);
      CheckedReadFinds(servers.v, mid, final, x, row, now);
      servers.Execute(meanwhile, final);
      var answer := Ask(row, replica);
      return Some(answer);
    }
  }

  lemma InsertKeeps(v: Variant, s: State, i: nat, now: real)
    requires Inv(v, s) && i < |s.sessions| && s.sessions[i].phase.Idle? && !v.captureEarly
    ensures var t := Inserting(v, s, i, now);
            && Inv(v, t) && i < |t.sessions| && t.sessions[i] == s.sessions[i].(phase := Committed(s.nextRow, now))
  {
    StepKeepsInv(v, s, Begin(i));
    StepKeepsInv(v, Apply(v, s, Begin(i)), Finish(i, now));
  }

  lemma BothRun(v: Variant, s: State, es: seq<Event>, mid: State, fs: seq<Event>, s': State, i: nat)
    requires Inv(v, s) && Run(v, s, es, mid) && Run(v, mid, fs, s') && i < |s.sessions|
    requires forall e <- es + fs :: NotBy(e, i)
    ensures Inv(v, mid) && Inv(v, s') && i < |mid.sessions| && i < |s'.sessions|
    ensures mid.sessions[i] == s'.sessions[i] == s.sessions[i]
    ensures mid.wal <= s'.wal && mid.replayed <= s'.replayed
  {
    forall e <- es ensures NotBy(e, i) {
      assert e in es + fs;
    }
    forall e <- fs ensures NotBy(e, i) {
      assert e in es + fs;
    }
    OthersRun(v, s, es, mid, i);
    OthersRun(v, mid, fs, s', i);
  }

  /** What the check saw still holds when the query runs. */
  lemma CheckedReadFinds(v: Variant, mid: State, final: State, x: Session, row: nat, now: real)
    requires SessionOk(v, final, x) && row in x.rows && mid.replayed <= final.replayed <= |final.wal|
    requires MayRead(v, mid, x)
    ensures TakesToken(v) && !v.checkReceived && !v.captureEarly ==>
              if ToReplica(v, mid, x, now) then OnReplica(final, row) else OnPrimary(final, row)
  {
    assert RowOk(v, final, x, row);
    if TakesToken(v) && !v.checkReceived && !v.captureEarly && ToReplica(v, mid, x, now) {
      TokenCovers(v, final, x, row);
    }
  }
}
