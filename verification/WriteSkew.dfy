/**
 Doctors going off call. A request counts the doctors of its shift who are on call and, if
 there are at least two, takes its own doctor off, all in one transaction that is retried
 as a whole after a serialization failure.

 The table is the initial rows plus the list of committed transactions. The server's part:
 a snapshot is a prefix of that list; row locks are held to commit; at repeatable
 read and above an UPDATE fails if its row was changed after the snapshot; at
 serializable a commit that would complete a dangerous rw structure fails.
 */
module WriteSkew {
  import opened Common

  const MAX_RETRIES: nat := 5

  datatype Isolation = ReadCommitted | RepeatableRead | Serializable

  /**
   `lockReads` is the FOR UPDATE variant. `updateOnly` is the trap the program warns of:
   a retry that keeps the old decision and repeats the UPDATE alone.
   */
  datatype Variant = Variant(isolation: Isolation, lockReads: bool, updateOnly: bool)

  datatype Request = Request(shift: nat, doctor: nat)

  /** A committed transaction: what it read and wrote, and how many commits its snapshot saw. */
  datatype Rec = Rec(request: Request, read: bool, wrote: bool, snap: nat)

  /**
   `Locking(d, n)`: holds the rows of doctors below d, n of them on call.
   `Decided(n, snap, read)`: has the count. `Updated`: its UPDATE is done, not yet committed.
   */
  datatype Phase =
    | Idle
    | Stale(count: nat)
    | Locking(next: nat, count: nat)
    | Decided(count: nat, snap: nat, read: bool)
    | Updated(count: nat, snap: nat, read: bool)

  datatype Tally = Tally(wrote: nat, declined: nat, aborts: nat, retries: nat, gaveUp: nat)

  datatype Worker = Worker(todo: seq<Request>, attempt: nat, phase: Phase, tally: Tally)

  datatype State = State(hist: seq<Rec>, workers: seq<Worker>)

  datatype Outcome = Wrote | Declined | Failed

  datatype Event = Begin(w: nat) | LockRow(w: nat) | Update(w: nat) | Commit(w: nat) | Fail(w: nat)

  type Table = seq<seq<bool>>

  // ---------------------------------------------------------------- the retry loop

  function AfterAttempt(k: Worker, o: Outcome): Worker {
    if k.todo == [] then k
    else
      var t := k.tally;
      match o
      case Wrote => Worker(k.todo[1..], 0, Idle, t.(wrote := t.wrote + 1))
      case Declined => Worker(k.todo[1..], 0, Idle, t.(declined := t.declined + 1))
      case Failed =>
        if k.attempt == MAX_RETRIES then
          Worker(k.todo[1..], 0, Idle, t.(aborts := t.aborts + 1, gaveUp := t.gaveUp + 1))
        else
          Worker(k.todo, k.attempt + 1, Idle, t.(aborts := t.aborts + 1, retries := t.retries + 1))
  }

  /** What a worker has come to after these attempts, newest first. */
  function Replay(k: Worker, outcomes: seq<Outcome>): Worker {
    if outcomes == [] then k else AfterAttempt(Replay(k, outcomes[1..]), outcomes[0])
  }

  /**
   One request. Attempt i reaches its decision `decides(i)` and then commits or, if
   `fails(i)`, is rolled back; the counters set before a rollback are taken back.
   */
  method GoOffCall(request: Request, decides: nat -> bool, fails: nat -> bool)
    returns (counters: Tally, trace: seq<Outcome>)
    ensures Replay(Worker([request], 0, Idle, Tally(0, 0, 0, 0, 0)), trace) == Worker([], 0, Idle, counters)
    ensures counters.wrote + counters.declined + counters.gaveUp == 1
    ensures counters.aborts == counters.retries + counters.gaveUp && |trace| == counters.retries + 1
    ensures counters.gaveUp == 1 <==> forall i :: 0 <= i <= MAX_RETRIES ==> fails(i)
    ensures counters.gaveUp == 0 ==> !fails(counters.retries) && (counters.wrote == 1 <==> decides(counters.retries))
  {
    ghost var start := Worker([request], 0, Idle, Tally(0, 0, 0, 0, 0));
    counters, trace := Tally(0, 0, 0, 0, 0), [];
    for attempt := 0 to MAX_RETRIES + 1
      invariant counters == Tally(0, 0, attempt, attempt, 0) && |trace| == attempt <= MAX_RETRIES
      invariant Replay(start, trace) == Worker([request], attempt, Idle, counters)
      invariant forall i :: 0 <= i < attempt ==> fails(i)
    {
      if decides(attempt) {
        counters := counters.(wrote := counters.wrote + 1);
      } else {
        counters := counters.(declined := counters.declined + 1);
      }
      var o := if fails(attempt) then Failed else if decides(attempt) then Wrote else Declined;
      trace := [o] + trace;
      if o != Failed {
        return;
      }
      counters := counters.(aborts := counters.aborts + 1, wrote := 0, declined := 0);
      if attempt == MAX_RETRIES {
        counters := counters.(gaveUp := counters.gaveUp + 1);
        return;
      }
      counters := counters.(retries := counters.retries + 1);
    }
  }

  // ---------------------------------------------------------------- the table

  ghost predicate TakenOff(hist: seq<Rec>, shift: nat, d: nat) {
    exists i :: 0 <= i < |hist| && hist[i].wrote && hist[i].request == Request(shift, d)
  }

  /** Doctor d of the shift is on call after the listed commits. */
  ghost predicate OnCall(init: Table, hist: seq<Rec>, shift: nat, d: nat) {
    shift < |init| && d < |init[shift]| && init[shift][d] && !TakenOff(hist, shift, d)
  }

  function Doctors(init: Table, shift: nat): nat { if shift < |init| then |init[shift]| else 0 }

  /** How many of the doctors below d are on call. */
  ghost function CountBelow(init: Table, hist: seq<Rec>, shift: nat, d: nat): nat {
    if d == 0 then 0
    else CountBelow(init, hist, shift, d - 1) + if OnCall(init, hist, shift, d - 1) then 1 else 0
  }

  ghost function CountOnCall(init: Table, hist: seq<Rec>, shift: nat): nat {
    CountBelow(init, hist, shift, Doctors(init, shift))
  }

  // ---------------------------------------------------------------- the server's rules

  /** Row locks follow from the phase: a locking reader's rows, and the row an UPDATE touched. */
  predicate Holds(init: Table, v: Variant, k: Worker, shift: nat, d: nat) {
    k.todo != [] && k.todo[0].shift == shift && d < Doctors(init, shift) &&
    match k.phase
    case Locking(next, _) => d < next
    case Decided(_, _, _) => v.lockReads
    case Updated(_, _, _) => v.lockReads || d == k.todo[0].doctor
    case _ => false
  }

  ghost predicate LockedByOther(init: Table, v: Variant, s: State, w: nat, shift: nat, d: nat) {
    exists x :: 0 <= x < |s.workers| && x != w && Holds(init, v, s.workers[x], shift, d)
  }

  /** i read a row version that the concurrent j replaced. */
  predicate RwConflict(hist: seq<Rec>, i: nat, j: nat) {
    i < |hist| && j < |hist| && i != j &&
    hist[i].read && hist[j].wrote && hist[i].request.shift == hist[j].request.shift &&
    hist[i].snap <= j && hist[j].snap <= i
  }

  /** Two consecutive rw conflicts a -> b -> c among committed transactions, c the first to commit. */
  ghost predicate Dangerous(hist: seq<Rec>) {
    exists a: nat, b: nat, c: nat :: RwConflict(hist, a, b) && RwConflict(hist, b, c) && c <= a && c < b
  }

  ghost predicate RowChangedSince(hist: seq<Rec>, snap: nat, r: Request) {
    exists i :: snap <= i < |hist| && hist[i].wrote && hist[i].request == r
  }

  function RecOf(k: Worker): Rec
    requires k.todo != [] && (k.phase.Decided? || k.phase.Updated?)
  {
    Rec(k.todo[0], k.phase.read, k.phase.Updated?, k.phase.snap)
  }

  ghost predicate Enabled(init: Table, v: Variant, s: State, e: Event) {
    e.w < |s.workers| && s.workers[e.w].todo != [] &&
    var k := s.workers[e.w];
    var r := k.todo[0];
    match e
    case Begin(w) => k.phase.Idle? || k.phase.Stale?
    case LockRow(w) => k.phase.Locking? && !LockedByOther(init, v, s, w, r.shift, k.phase.next)
    case Update(w) =>
      k.phase.Decided? && k.phase.count > 1 && !LockedByOther(init, v, s, w, r.shift, r.doctor) &&
      (v.isolation != ReadCommitted ==> !RowChangedSince(s.hist, k.phase.snap, r))
    case Commit(w) =>
      (k.phase.Updated? || (k.phase.Decided? && k.phase.count <= 1)) &&
      (v.isolation == Serializable ==> !Dangerous(s.hist + [RecOf(k)]))
    case Fail(w) => v.isolation != ReadCommitted && (k.phase.Decided? || k.phase.Updated?)
  }

  ghost function Apply(init: Table, v: Variant, s: State, e: Event): State
    requires Enabled(init, v, s, e)
  {
    var k := s.workers[e.w];
    var r := k.todo[0];
    match e
    case Begin(w) =>
      var phase :=
        if k.phase.Stale? then Decided(k.phase.count, |s.hist|, false)
        else if v.lockReads && Doctors(init, r.shift) > 0 then Locking(0, 0)
        else Decided(CountOnCall(init, s.hist, r.shift), |s.hist|, true);
      s.(workers := s.workers[w := k.(phase := phase)])
    case LockRow(w) =>
      var d := k.phase.next;
      var n := k.phase.count + if OnCall(init, s.hist, r.shift, d) then 1 else 0;
      var phase := if d + 1 < Doctors(init, r.shift) then Locking(d + 1, n) else Decided(n, |s.hist|, true);
      s.(workers := s.workers[w := k.(phase := phase)])
    case Update(w) =>
      s.(workers := s.workers[w := k.(phase := Updated(k.phase.count, k.phase.snap, k.phase.read))])
    case Commit(w) =>
      State(s.hist + [RecOf(k)], s.workers[w := AfterAttempt(k, if k.phase.Updated? then Wrote else Declined)])
    case Fail(w) =>
      var k' := AfterAttempt(k, Failed);
      var keep := v.updateOnly && k'.todo == k.todo && k.phase.count > 1;
      s.(workers := s.workers[w := if keep then k'.(phase := Stale(k.phase.count)) else k'])
  }

  ghost predicate Run(init: Table, v: Variant, s: State, es: seq<Event>, s': State)
    decreases |es|
  {
    if es == [] then s == s'
    else Enabled(init, v, s, es[0]) && Run(init, v, Apply(init, v, s, es[0]), es[1..], s')
  }

  function Start(requests: seq<seq<Request>>): State {
    State([], seq(|requests|, i requires 0 <= i < |requests| =>
      Worker(requests[i], 0, Idle, Tally(0, 0, 0, 0, 0))))
  }

  ghost predicate Reachable(init: Table, v: Variant, requests: seq<seq<Request>>, s: State) {
    exists es :: Run(init, v, Start(requests), es, s)
  }

  /** Nobody of a shift that started with somebody on call may be left without one. */
  ghost predicate EveryShiftCovered(init: Table, s: State) {
    forall shift :: CountOnCall(init, [], shift) >= 1 ==> CountOnCall(init, s.hist, shift) >= 1
  }

  // ---------------------------------------------------------------- counting

  lemma {:induction false} CountDropsByOne(init: Table, hist: seq<Rec>, rec: Rec, shift: nat, d: nat)
    ensures CountBelow(init, hist + [rec], shift, d) <= CountBelow(init, hist, shift, d)
    ensures CountBelow(init, hist + [rec], shift, d) >= CountBelow(init, hist, shift, d) -
              if rec.wrote && rec.request.shift == shift && rec.request.doctor < d then 1 else 0
    decreases d
  {
    if d > 0 {
      CountDropsByOne(init, hist, rec, shift, d - 1);
      TakenOffAppend(hist, rec, shift, d - 1);
    }
  }

  lemma TakenOffAppend(hist: seq<Rec>, rec: Rec, shift: nat, d: nat)
    ensures TakenOff(hist + [rec], shift, d) <==>
              TakenOff(hist, shift, d) || (rec.wrote && rec.request == Request(shift, d))
  {
    var longer := hist + [rec];
    if TakenOff(hist, shift, d) {
      var i :| 0 <= i < |hist| && hist[i].wrote && hist[i].request == Request(shift, d);
      assert longer[i] == hist[i];
    }
    if rec.wrote && rec.request == Request(shift, d) {
      assert longer[|hist|] == rec;
    }
  }

  /** Commits that write nothing on a shift leave its count alone. */
  lemma {:induction false} CountUnseen(init: Table, hist: seq<Rec>, snap: nat, shift: nat, d: nat)
    requires snap <= |hist|
    requires forall j :: snap <= j < |hist| ==> !(hist[j].wrote && hist[j].request.shift == shift)
    ensures CountBelow(init, hist, shift, d) == CountBelow(init, hist[..snap], shift, d)
    decreases d
  {
    if d > 0 {
      CountUnseen(init, hist, snap, shift, d - 1);
      if TakenOff(hist, shift, d - 1) {
        var i :| 0 <= i < |hist| && hist[i].wrote && hist[i].request == Request(shift, d - 1);
        assert hist[..snap][i] == hist[i];
      }
    }
  }

  // ---------------------------------------------------------------- FOR UPDATE at read committed

  ghost predicate CountIsCurrent(init: Table, hist: seq<Rec>, k: Worker) {
    if k.todo == [] then k.phase == Idle
    else
      var shift := k.todo[0].shift;
      match k.phase
      case Idle => true
      case Stale(_) => false
      case Locking(next, n) => next < Doctors(init, shift) && n == CountBelow(init, hist, shift, next)
      case Decided(n, _, _) => n == CountOnCall(init, hist, shift)
      case Updated(n, _, _) => n > 1 && n == CountOnCall(init, hist, shift)
  }

  ghost predicate Exclusive(init: Table, v: Variant, s: State) {
    forall w, x, shift, d | 0 <= w < |s.workers| && 0 <= x < |s.workers| && w != x ::
      !(Holds(init, v, s.workers[w], shift, d) && Holds(init, v, s.workers[x], shift, d))
  }

  ghost predicate LockInv(init: Table, v: Variant, s: State) {
    && Exclusive(init, v, s)
    && (forall w :: 0 <= w < |s.workers| ==> CountIsCurrent(init, s.hist, s.workers[w]))
    && EveryShiftCovered(init, s)
  }

  lemma ExclusiveKept(init: Table, v: Variant, s: State, e: Event)
    requires v.isolation == ReadCommitted && v.lockReads && LockInv(init, v, s) && Enabled(init, v, s, e)
    ensures Exclusive(init, v, Apply(init, v, s, e))
  {
    var s' := Apply(init, v, s, e);
    assert CountIsCurrent(init, s.hist, s.workers[e.w]);
    forall w, x, shift, d | 0 <= w < |s.workers| && 0 <= x < |s.workers| && w != x &&
                            Holds(init, v, s'.workers[w], shift, d)
      ensures !Holds(init, v, s'.workers[x], shift, d)
    {
      if w != e.w && x != e.w {
        assert Holds(init, v, s.workers[w], shift, d);
      }
    }
  }

  /** A commit on a shift, by the holder of all its rows, leaves no other count of that shift outdated. */
  lemma CountsKept(init: Table, v: Variant, s: State, w: nat, x: nat)
    requires v.isolation == ReadCommitted && v.lockReads && LockInv(init, v, s) && Enabled(init, v, s, Commit(w))
    requires x < |s.workers| && x != w
    ensures CountIsCurrent(init, s.hist + [RecOf(s.workers[w])], s.workers[x])
  {
    var rec, k := RecOf(s.workers[w]), s.workers[x];
    assert CountIsCurrent(init, s.hist, k);
    if k.todo != [] {
      var shift := k.todo[0].shift;
      var d := if k.phase.Locking? then k.phase.next else Doctors(init, shift);
      CountDropsByOne(init, s.hist, rec, shift, d);
      if rec.wrote && rec.request.shift == shift && d > 0 {
        assert Holds(init, v, s.workers[w], shift, 0);
        assert !Holds(init, v, k, shift, 0);
      }
    }
  }

  lemma LockStep(init: Table, v: Variant, s: State, e: Event)
    requires v.isolation == ReadCommitted && v.lockReads && LockInv(init, v, s) && Enabled(init, v, s, e)
    ensures LockInv(init, v, Apply(init, v, s, e))
  {
    var s' := Apply(init, v, s, e);
    ExclusiveKept(init, v, s, e);
    assert CountIsCurrent(init, s.hist, s.workers[e.w]);
    forall x | 0 <= x < |s.workers| ensures CountIsCurrent(init, s'.hist, s'.workers[x]) {
      if e.Commit? && x != e.w {
        CountsKept(init, v, s, e.w, x);
      } else {
        assert CountIsCurrent(init, s.hist, s.workers[x]);
      }
    }
    if e.Commit? {
      var rec := RecOf(s.workers[e.w]);
      forall shift | CountOnCall(init, [], shift) >= 1 ensures CountOnCall(init, s'.hist, shift) >= 1 {
        assert CountOnCall(init, s.hist, shift) >= 1;
        CountDropsByOne(init, s.hist, rec, shift, Doctors(init, shift));
      }
    }
  }

  lemma {:induction false} LockRun(init: Table, v: Variant, s: State, es: seq<Event>, s': State)
    requires v.isolation == ReadCommitted && v.lockReads && LockInv(init, v, s) && Run(init, v, s, es, s')
    ensures LockInv(init, v, s')
    decreases |es|
  {
    if es != [] {
      LockStep(init, v, s, es[0]);
      LockRun(init, v, Apply(init, v, s, es[0]), es[1..], s');
    }
  }

  /** Locking the rows one reads keeps every shift covered, for any table, workers and interleaving. */
  lemma ForUpdateKeepsCover(init: Table, updateOnly: bool, requests: seq<seq<Request>>, s: State)
    requires Reachable(init, Variant(ReadCommitted, true, updateOnly), requests, s)
    ensures EveryShiftCovered(init, s)
  {
    var v := Variant(ReadCommitted, true, updateOnly);
    var es :| Run(init, v, Start(requests), es, s);
    LockRun(init, v, Start(requests), es, s);
  }

  // ---------------------------------------------------------------- serializable

  ghost predicate CountWasSeen(init: Table, hist: seq<Rec>, k: Worker) {
    if k.todo == [] then k.phase == Idle
    else
      match k.phase
      case Idle => true
      case Stale(_) => false
      case Locking(_, _) => false
      case Decided(n, snap, read) => read && snap <= |hist| && n == CountOnCall(init, hist[..snap], k.todo[0].shift)
      case Updated(n, snap, read) =>
        n > 1 && read && snap <= |hist| && n == CountOnCall(init, hist[..snap], k.todo[0].shift)
  }

  ghost predicate SnapshotInv(init: Table, s: State) {
    && (forall i :: 0 <= i < |s.hist| ==> s.hist[i].read && s.hist[i].snap <= i)
    && (forall w :: 0 <= w < |s.workers| ==> CountWasSeen(init, s.hist, s.workers[w]))
    && EveryShiftCovered(init, s)
  }

  /** A commit the server allows has seen every earlier writer of its shift. */
  lemma CommitSawAll(hist: seq<Rec>, rec: Rec, j: nat)
    requires rec.read && rec.wrote && rec.snap <= j < |hist|
    requires forall i :: 0 <= i < |hist| ==> hist[i].read && hist[i].snap <= i
    requires !Dangerous(hist + [rec])
    ensures !(hist[j].wrote && hist[j].request.shift == rec.request.shift)
  {
    var longer, last := hist + [rec], |hist|;
    if hist[j].wrote && hist[j].request.shift == rec.request.shift {
      assert longer[j] == hist[j] && longer[last] == rec;
      assert RwConflict(longer, last, j) && RwConflict(longer, j, last);
    }
  }

  lemma SnapshotStep(init: Table, v: Variant, s: State, e: Event)
    requires v.isolation == Serializable && !v.lockReads && !v.updateOnly
    requires SnapshotInv(init, s) && Enabled(init, v, s, e)
    ensures SnapshotInv(init, Apply(init, v, s, e))
  {
    var s' := Apply(init, v, s, e);
    var k := s.workers[e.w];
    assert CountWasSeen(init, s.hist, k);
    assert s.hist[..|s.hist|] == s.hist;
    forall x | 0 <= x < |s.workers| ensures CountWasSeen(init, s'.hist, s'.workers[x]) {
      assert CountWasSeen(init, s.hist, s.workers[x]);
      var phase := s.workers[x].phase;
      if e.Commit? && (phase.Decided? || phase.Updated?) {
        assert s'.hist[..phase.snap] == s.hist[..phase.snap];
      }
    }
    if e.Commit? {
      var rec := RecOf(k);
      var mine := k.todo[0].shift;
      if rec.wrote {
        forall j | rec.snap <= j < |s.hist| ensures !(s.hist[j].wrote && s.hist[j].request.shift == mine) {
          CommitSawAll(s.hist, rec, j);
        }
        CountUnseen(init, s.hist, rec.snap, mine, Doctors(init, mine));
      }
      forall shift | CountOnCall(init, [], shift) >= 1 ensures CountOnCall(init, s'.hist, shift) >= 1 {
        assert CountOnCall(init, s.hist, shift) >= 1;
        CountDropsByOne(init, s.hist, rec, shift, Doctors(init, shift));
      }
    }
  }

  lemma {:induction false} SnapshotRun(init: Table, v: Variant, s: State, es: seq<Event>, s': State)
    requires v.isolation == Serializable && !v.lockReads && !v.updateOnly
    requires SnapshotInv(init, s) && Run(init, v, s, es, s')
    ensures SnapshotInv(init, s')
    decreases |es|
  {
    if es != [] {
      SnapshotStep(init, v, s, es[0]);
      SnapshotRun(init, v, Apply(init, v, s, es[0]), es[1..], s');
    }
  }

  /** Serializable with whole-transaction retry keeps every shift covered. */
  lemma SerializableKeepsCover(init: Table, requests: seq<seq<Request>>, s: State)
    requires Reachable(init, Variant(Serializable, false, false), requests, s)
    ensures EveryShiftCovered(init, s)
  {
    var v := Variant(Serializable, false, false);
    var es :| Run(init, v, Start(requests), es, s);
    SnapshotRun(init, v, Start(requests), es, s);
  }

  // ---------------------------------------------------------------- bookkeeping

  ghost predicate Booked(requests: seq<Request>, k: Worker) {
    && k.tally.wrote + k.tally.declined + k.tally.gaveUp + |k.todo| == |requests|
    && k.tally.aborts == k.tally.retries + k.tally.gaveUp
    && k.attempt <= MAX_RETRIES
  }

  lemma {:induction false} RunBooked(init: Table, v: Variant, requests: seq<seq<Request>>,
                                     s: State, es: seq<Event>, s': State)
    requires Run(init, v, s, es, s') && |s.workers| == |requests|
    requires forall w :: 0 <= w < |s.workers| ==> Booked(requests[w], s.workers[w])
    ensures |s'.workers| == |s.workers|
    ensures forall w :: 0 <= w < |s'.workers| ==> Booked(requests[w], s'.workers[w])
    decreases |es|
  {
    if es != [] {
      RunBooked(init, v, requests, Apply(init, v, s, es[0]), es[1..], s');
    }
  }

  /** In every variant each request is written, declined, given up or still to do. */
  lemma EveryRequestAccounted(init: Table, v: Variant, requests: seq<seq<Request>>, s: State, w: nat)
    requires Reachable(init, v, requests, s) && w < |requests|
    ensures |s.workers| == |requests| && Booked(requests[w], s.workers[w])
  {
    var es :| Run(init, v, Start(requests), es, s);
    RunBooked(init, v, requests, Start(requests), es, s);
  }

  // ---------------------------------------------------------------- what a request decides

  /** What commit i had counted: under FOR UPDATE the doctors on call when it committed, otherwise in its snapshot. */
  ghost function CountSeen(init: Table, v: Variant, hist: seq<Rec>, i: nat): nat
    requires i < |hist|
  {
    CountOnCall(init, hist[..if v.lockReads || hist[i].snap > i then i else hist[i].snap], hist[i].request.shift)
  }

  /** It took its doctor off exactly when it had counted two or more. */
  ghost predicate DecidedRight(init: Table, v: Variant, hist: seq<Rec>, i: nat)
    requires i < |hist|
  {
    hist[i].wrote <==> CountSeen(init, v, hist, i) > 1
  }

  ghost predicate AllDecidedRight(init: Table, v: Variant, hist: seq<Rec>) {
    forall i: nat :: i < |hist| ==> DecidedRight(init, v, hist, i)
  }

  lemma OneMoreDecided(init: Table, v: Variant, hist: seq<Rec>, rec: Rec)
    requires AllDecidedRight(init, v, hist) && rec.snap <= |hist|
    requires rec.wrote <==>
             CountOnCall(init, if v.lockReads then hist else hist[..rec.snap], rec.request.shift) > 1
    ensures AllDecidedRight(init, v, hist + [rec])
  {
    var more := hist + [rec];
    forall i: nat | i < |more| ensures DecidedRight(init, v, more, i) {
      var k := if v.lockReads || more[i].snap > i then i else more[i].snap;
      assert more[..k] == hist[..k];
      if i < |hist| {
        assert DecidedRight(init, v, hist, i);
      } else {
        assert hist[..|hist|] == hist;
      }
    }
  }

  lemma {:induction false} LockedDecide(init: Table, v: Variant, s: State, es: seq<Event>, s': State)
    requires v.isolation == ReadCommitted && v.lockReads && LockInv(init, v, s) && Run(init, v, s, es, s')
    requires AllDecidedRight(init, v, s.hist) && SnapsOk(s)
    ensures AllDecidedRight(init, v, s'.hist)
    decreases |es|
  {
    if es != [] {
      LockStep(init, v, s, es[0]);
      assert CountIsCurrent(init, s.hist, s.workers[es[0].w]);
      if es[0].Commit? {
        OneMoreDecided(init, v, s.hist, RecOf(s.workers[es[0].w]));
      }
      LockedDecide(init, v, Apply(init, v, s, es[0]), es[1..], s');
    }
  }

  /** Snapshots are of the past. */
  ghost predicate SnapsOk(s: State) {
    forall w :: 0 <= w < |s.workers| ==>
      match s.workers[w].phase
      case Decided(_, snap, _) => snap <= |s.hist|
      case Updated(_, snap, _) => snap <= |s.hist|
      case _ => true
  }

  ghost predicate AllSeen(init: Table, s: State) {
    forall w :: 0 <= w < |s.workers| ==> CountWasSeen(init, s.hist, s.workers[w])
  }

  lemma SeenStep(init: Table, v: Variant, s: State, e: Event)
    requires !v.lockReads && !v.updateOnly && AllSeen(init, s) && Enabled(init, v, s, e)
    ensures AllSeen(init, Apply(init, v, s, e))
  {
    var s' := Apply(init, v, s, e);
    assert CountWasSeen(init, s.hist, s.workers[e.w]);
    assert s.hist[..|s.hist|] == s.hist;
    forall x | 0 <= x < |s.workers| ensures CountWasSeen(init, s'.hist, s'.workers[x]) {
      assert CountWasSeen(init, s.hist, s.workers[x]);
      var phase := s.workers[x].phase;
      if e.Commit? && (phase.Decided? || phase.Updated?) {
        assert s'.hist[..phase.snap] == s.hist[..phase.snap];
      }
    }
  }

  lemma {:induction false} SeenDecide(init: Table, v: Variant, s: State, es: seq<Event>, s': State)
    requires !v.lockReads && !v.updateOnly && AllSeen(init, s) && AllDecidedRight(init, v, s.hist)
    requires Run(init, v, s, es, s')
    ensures AllDecidedRight(init, v, s'.hist)
    decreases |es|
  {
    if es != [] {
      SeenStep(init, v, s, es[0]);
      assert CountWasSeen(init, s.hist, s.workers[es[0].w]);
      if es[0].Commit? {
        OneMoreDecided(init, v, s.hist, RecOf(s.workers[es[0].w]));
      }
      SeenDecide(init, v, Apply(init, v, s, es[0]), es[1..], s');
    }
  }

  /**
   In every run of every variant that retries the whole transaction: a committed request has taken its doctor off
   exactly when it had counted two or more on call.
   */
  lemma WritesExactlyWhenTwo(init: Table, v: Variant, requests: seq<seq<Request>>, s: State, i: nat)
    requires !v.updateOnly && (v.lockReads ==> v.isolation == ReadCommitted)
    requires Reachable(init, v, requests, s) && i < |s.hist|
    ensures s.hist[i].wrote <==> CountSeen(init, v, s.hist, i) > 1
  {
    var es :| Run(init, v, Start(requests), es, s);
    if v.lockReads {
      LockedDecide(init, v, Start(requests), es, s);
    } else {
      SeenDecide(init, v, Start(requests), es, s);
    }
    assert DecidedRight(init, v, s.hist, i);
  }

  function Wrotes(workers: seq<Worker>): seq<int> {
    seq(|workers|, i requires 0 <= i < |workers| => workers[i].tally.wrote)
  }

  function Declines(workers: seq<Worker>): seq<int> {
    seq(|workers|, i requires 0 <= i < |workers| => workers[i].tally.declined)
  }

  function Flags(hist: seq<Rec>, wrote: bool): seq<int> {
    seq(|hist|, i requires 0 <= i < |hist| => if hist[i].wrote == wrote then 1 else 0)
  }

  lemma TalliesStep(init: Table, v: Variant, s: State, e: Event)
    requires Enabled(init, v, s, e)
    ensures var s' := Apply(init, v, s, e);
            && Sum(Wrotes(s'.workers)) - Sum(Wrotes(s.workers)) == Sum(Flags(s'.hist, true)) - Sum(Flags(s.hist, true))
            && Sum(Declines(s'.workers)) - Sum(Declines(s.workers)) ==
               Sum(Flags(s'.hist, false)) - Sum(Flags(s.hist, false))
  {
    var s' := Apply(init, v, s, e);
    assert Wrotes(s'.workers) == Wrotes(s.workers)[e.w := s'.workers[e.w].tally.wrote];
    SumUpdate(Wrotes(s.workers), e.w, s'.workers[e.w].tally.wrote);
    assert Declines(s'.workers) == Declines(s.workers)[e.w := s'.workers[e.w].tally.declined];
    SumUpdate(Declines(s.workers), e.w, s'.workers[e.w].tally.declined);
    if e.Commit? {
      FlagsMore(s.hist, RecOf(s.workers[e.w]));
    }
  }

  lemma FlagsMore(hist: seq<Rec>, rec: Rec)
    ensures Sum(Flags(hist + [rec], true)) == Sum(Flags(hist, true)) + if rec.wrote then 1 else 0
    ensures Sum(Flags(hist + [rec], false)) == Sum(Flags(hist, false)) + if rec.wrote then 0 else 1
  {
    var x := if rec.wrote then 1 else 0;
    assert Flags(hist + [rec], true) == Flags(hist, true) + [x];
    assert Flags(hist + [rec], false) == Flags(hist, false) + [1 - x];
    SumAppend(Flags(hist, true), [x]);
    SumAppend(Flags(hist, false), [1 - x]);
    assert [x][1..] == [] && [1 - x][1..] == [];
  }

  lemma {:induction false} TalliesRun(init: Table, v: Variant, s: State, es: seq<Event>, s': State)
    requires Run(init, v, s, es, s')
    requires Sum(Wrotes(s.workers)) == Sum(Flags(s.hist, true)) && Sum(Declines(s.workers)) == Sum(Flags(s.hist, false))
    ensures Sum(Wrotes(s'.workers)) == Sum(Flags(s'.hist, true))
    ensures Sum(Declines(s'.workers)) == Sum(Flags(s'.hist, false))
    decreases |es|
  {
    if es != [] {
      TalliesStep(init, v, s, es[0]);
      TalliesRun(init, v, Apply(init, v, s, es[0]), es[1..], s');
    }
  }

  /** In every run the workers have counted as written, and as declined, exactly the commits that were. */
  lemma TalliesMatchCommits(init: Table, v: Variant, requests: seq<seq<Request>>, s: State)
    requires Reachable(init, v, requests, s)
    ensures Sum(Wrotes(s.workers)) == Sum(Flags(s.hist, true)) && Sum(Declines(s.workers)) == Sum(Flags(s.hist, false))
  {
    var es :| Run(init, v, Start(requests), es, s);
    SumBounds(Wrotes(Start(requests).workers), 0, 0);
    SumBounds(Declines(Start(requests).workers), 0, 0);
    TalliesRun(init, v, Start(requests), es, s);
  }

  // ---------------------------------------------------------------- the anomaly

  const PAIR: seq<seq<Request>> := [[Request(0, 0)], [Request(0, 1)]]

  const BOTH_ON: Table := [[true, true]]

  lemma {:induction false} RunAppend(init: Table, v: Variant, s: State, es: seq<Event>, mid: State,
                                     fs: seq<Event>, s': State)
    requires Run(init, v, s, es, mid) && Run(init, v, mid, fs, s')
    ensures Run(init, v, s, es + fs, s')
    decreases |es|
  {
    if es == [] {
      assert es + fs == fs;
    } else {
      assert (es + fs)[1..] == es[1..] + fs;
      RunAppend(init, v, Apply(init, v, s, es[0]), es[1..], mid, fs, s');
    }
  }

  lemma RunSnoc(init: Table, v: Variant, s: State, es: seq<Event>, mid: State, e: Event)
    requires Run(init, v, s, es, mid) && Enabled(init, v, mid, e)
    ensures Run(init, v, s, es + [e], Apply(init, v, mid, e))
  {
    assert [e][1..] == [];
    RunAppend(init, v, s, es, mid, [e], Apply(init, v, mid, e));
  }

  lemma CountOfPair(hist: seq<Rec>)
    ensures CountOnCall(BOTH_ON, hist, 0) ==
            (if TakenOff(hist, 0, 0) then 0 else 1) + (if TakenOff(hist, 0, 1) then 0 else 1)
  {
    assert CountBelow(BOTH_ON, hist, 0, 2) ==
           CountBelow(BOTH_ON, hist, 0, 1) + if OnCall(BOTH_ON, hist, 0, 1) then 1 else 0;
    assert CountBelow(BOTH_ON, hist, 0, 1) ==
           CountBelow(BOTH_ON, hist, 0, 0) + if OnCall(BOTH_ON, hist, 0, 0) then 1 else 0;
  }

  /** Both doctors read, both update: the state of the lock-step schedule before its commits. */
  lemma BothUpdated(v: Variant) returns (es: seq<Event>, s: State)
    requires !v.lockReads
    ensures Run(BOTH_ON, v, Start(PAIR), es, s) && s.hist == [] && |s.workers| == 2
    ensures s.workers[0] == Worker([Request(0, 0)], 0, Updated(2, 0, true), Tally(0, 0, 0, 0, 0))
    ensures s.workers[1] == Worker([Request(0, 1)], 0, Updated(2, 0, true), Tally(0, 0, 0, 0, 0))
  {
    CountOfPair([]);
    var s0 := Start(PAIR);
    RunSnoc(BOTH_ON, v, s0, [], s0, Begin(0));
    var s1 := Apply(BOTH_ON, v, s0, Begin(0));
    RunSnoc(BOTH_ON, v, s0, [] + [Begin(0)], s1, Begin(1));
    var s2 := Apply(BOTH_ON, v, s1, Begin(1));
    RunSnoc(BOTH_ON, v, s0, [] + [Begin(0)] + [Begin(1)], s2, Update(0));
    var s3 := Apply(BOTH_ON, v, s2, Update(0));
    assert !LockedByOther(BOTH_ON, v, s3, 1, 0, 1);
    RunSnoc(BOTH_ON, v, s0, [] + [Begin(0)] + [Begin(1)] + [Update(0)], s3, Update(1));
    s := Apply(BOTH_ON, v, s3, Update(1));
    es := [] + [Begin(0)] + [Begin(1)] + [Update(0)] + [Update(1)];
  }

  /** Two commits that take doctors 0 and 1 off leave the shift uncovered. */
  lemma PairUncovered(s: State)
    requires |s.hist| == 2 && s.hist[0].wrote && s.hist[1].wrote
    requires s.hist[0].request == Request(0, 0) && s.hist[1].request == Request(0, 1)
    ensures !EveryShiftCovered(BOTH_ON, s)
  {
    CountOfPair([]);
    CountOfPair(s.hist);
  }

  /** Write skew happens at read committed and at repeatable read. */
  lemma WeakIsolationBreaks(v: Variant) returns (s: State)
    requires v.isolation != Serializable && !v.lockReads
    ensures Reachable(BOTH_ON, v, PAIR, s) && !EveryShiftCovered(BOTH_ON, s)
  {
    var es, s1 := BothUpdated(v);
    RunSnoc(BOTH_ON, v, Start(PAIR), es, s1, Commit(0));
    var s2 := Apply(BOTH_ON, v, s1, Commit(0));
    RunSnoc(BOTH_ON, v, Start(PAIR), es + [Commit(0)], s2, Commit(1));
    s := Apply(BOTH_ON, v, s2, Commit(1));
    PairUncovered(s);
  }

  /** At serializable the second commit of that schedule is refused: the transaction can only fail and start over. */
  lemma SecondCommitRefused(updateOnly: bool) returns (es: seq<Event>, s: State)
    ensures Run(BOTH_ON, Variant(Serializable, false, updateOnly), Start(PAIR), es, s)
    ensures s.hist == [Rec(Request(0, 0), true, true, 0)] && |s.workers| == 2 && s.workers[0].todo == []
    ensures s.workers[1] == Worker([Request(0, 1)], 0, Updated(2, 0, true), Tally(0, 0, 0, 0, 0))
    ensures forall e :: Enabled(BOTH_ON, Variant(Serializable, false, updateOnly), s, e) <==> e == Fail(1)
  {
    var v := Variant(Serializable, false, updateOnly);
    var s1;
    es, s1 := BothUpdated(v);
    RunSnoc(BOTH_ON, v, Start(PAIR), es, s1, Commit(0));
    s := Apply(BOTH_ON, v, s1, Commit(0));
    es := es + [Commit(0)];
    var longer := s.hist + [RecOf(s.workers[1])];
    assert RwConflict(longer, 1, 0) && RwConflict(longer, 0, 1);
  }

  /** The refused transaction fails and begins again, keeping its decision. */
  lemma BeginsOnOldDecision() returns (es: seq<Event>, s: State)
    ensures Run(BOTH_ON, Variant(Serializable, false, true), Start(PAIR), es, s)
    ensures s.hist == [Rec(Request(0, 0), true, true, 0)] && |s.workers| == 2 && s.workers[0].todo == []
    ensures s.workers[1] == Worker([Request(0, 1)], 1, Decided(2, 1, false), Tally(0, 0, 1, 1, 0))
  {
    var v := Variant(Serializable, false, true);
    var s1;
    es, s1 := SecondCommitRefused(true);
    RunSnoc(BOTH_ON, v, Start(PAIR), es, s1, Fail(1));
    var s2 := Apply(BOTH_ON, v, s1, Fail(1));
    RunSnoc(BOTH_ON, v, Start(PAIR), es + [Fail(1)], s2, Begin(1));
    s := Apply(BOTH_ON, v, s2, Begin(1));
    es := es + [Fail(1)] + [Begin(1)];
  }

  /** Retrying only the UPDATE, on the old decision, brings write skew back even at serializable. */
  lemma RetryingTheUpdateBreaks() returns (s: State)
    ensures Reachable(BOTH_ON, Variant(Serializable, false, true), PAIR, s) && !EveryShiftCovered(BOTH_ON, s)
  {
    var v := Variant(Serializable, false, true);
    var es, s1 := BeginsOnOldDecision();
    RunSnoc(BOTH_ON, v, Start(PAIR), es, s1, Update(1));
    var s2 := Apply(BOTH_ON, v, s1, Update(1));
    assert RecOf(s2.workers[1]) == Rec(Request(0, 1), false, true, 1);
    RunSnoc(BOTH_ON, v, Start(PAIR), es + [Update(1)], s2, Commit(1));
    s := Apply(BOTH_ON, v, s2, Commit(1));
    PairUncovered(s);
  }

  /** Whatever the table, the requests and the interleaving, no shift is left uncovered. */
  ghost predicate Safe(v: Variant) {
    forall init, requests, s :: Reachable(init, v, requests, s) ==> EveryShiftCovered(init, s)
  }

  /** Exactly the two remedies of the program are safe; locking reads are considered at read committed, as there. */
  lemma SafeExactly(v: Variant)
    requires v.lockReads ==> v.isolation == ReadCommitted
    ensures Safe(v) <==> v.lockReads || (v.isolation == Serializable && !v.updateOnly)
  {
    if v.lockReads {
      forall init, requests, s | Reachable(init, v, requests, s) ensures EveryShiftCovered(init, s) {
        ForUpdateKeepsCover(init, v.updateOnly, requests, s);
      }
    } else if v.isolation != Serializable {
      var s := WeakIsolationBreaks(v);
    } else if v.updateOnly {
      var s := RetryingTheUpdateBreaks();
    } else {
      forall init, requests, s | Reachable(init, v, requests, s) ensures EveryShiftCovered(init, s) {
        SerializableKeepsCover(init, requests, s);
      }
    }
  }

  // ---------------------------------------------------------------- the same steps, in place

  /** The table holds, for every doctor, whether the listed commits left them on call. */
  ghost predicate TableIs(init: Table, hist: seq<Rec>, table: Table) {
    && |table| == |init|
    && (forall i :: 0 <= i < |init| ==> |table[i]| == |init[i]|)
    && (forall i: nat, d: nat :: i < |init| && d < |init[i]| ==> (table[i][d] <==> OnCall(init, hist, i, d)))
  }

  /** The committed rows, overwritten as transactions commit, and the workers. */
  class Roster {
    const init: Table
    const v: Variant
    var table: Table
    var hist: seq<Rec>
    const workers: array<Worker>

    ghost predicate Valid()
      reads this, workers
    {
      TableIs(init, hist, table) &&
      forall w :: 0 <= w < workers.Length && workers[w].phase.Locking? ==> NextRowExists(workers[w])
    }

    predicate NextRowExists(k: Worker)
      requires k.phase.Locking?
    {
      k.todo != [] && k.phase.next < Doctors(init, k.todo[0].shift)
    }

    ghost function View(): State
      reads this, workers
    {
      State(hist, workers[..])
    }

    constructor (init: Table, v: Variant, requests: seq<seq<Request>>)
      ensures Valid() && this.init == init && this.v == v && View() == Start(requests) && fresh(workers)
    {
      this.init, this.v, table, hist := init, v, init, [];
      workers := new Worker[|requests|](i requires 0 <= i < |requests| =>
        Worker(requests[i], 0, Idle, Tally(0, 0, 0, 0, 0)));
      new;
      assert workers[..] == Start(requests).workers;
    }

    /** Counting the rows of a shift whose flag is set. */
    method CountRows(shift: nat) returns (n: nat)
      requires Valid()
      ensures n == CountOnCall(init, hist, shift)
    {
      n := 0;
      for d := 0 to Doctors(init, shift)
        invariant n == CountBelow(init, hist, shift, d)
      {
        if table[shift][d] {
          n := n + 1;
        }
      }
    }

    /** The SELECT, or the first of the row locks. */
    method BeginOne(w: nat)
      requires Valid() && Enabled(init, v, View(), Begin(w))
      modifies workers
      ensures Valid() && View() == Apply(init, v, old(View()), Begin(w))
    {
      var k := workers[w];
      var shift := k.todo[0].shift;
      if k.phase.Stale? {
        workers[w] := k.(phase := Decided(k.phase.count, |hist|, false));
      } else if v.lockReads && Doctors(init, shift) > 0 {
        workers[w] := k.(phase := Locking(0, 0));
      } else {
        var n := CountRows(shift);
        workers[w] := k.(phase := Decided(n, |hist|, true));
      }
    }

    method LockOne(w: nat)
      requires Valid() && Enabled(init, v, View(), LockRow(w))
      modifies workers
      ensures Valid() && View() == Apply(init, v, old(View()), LockRow(w))
    {
      var k := workers[w];
      var shift, d, n := k.todo[0].shift, k.phase.next, k.phase.count;
      if table[shift][d] {
        n := n + 1;
      }
      workers[w] := k.(phase := if d + 1 < Doctors(init, shift) then Locking(d + 1, n) else Decided(n, |hist|, true));
    }

    /** The commit makes the doctor's new row visible. */
    method CommitOne(w: nat)
      requires Valid() && Enabled(init, v, View(), Commit(w))
      modifies this, workers
      ensures Valid() && View() == Apply(init, v, old(View()), Commit(w))
    {
      var k := workers[w];
      var r := k.todo[0];
      ghost var before := hist;
      if k.phase.Updated? && r.shift < |table| && r.doctor < |table[r.shift]| {
        table := table[r.shift := table[r.shift][r.doctor := false]];
      }
      hist := hist + [RecOf(k)];
      forall i: nat, d: nat | i < |init| && d < |init[i]| ensures table[i][d] <==> OnCall(init, hist, i, d) {
        assert hist[|before|] == RecOf(k);
        assert TakenOff(hist, i, d) <==> TakenOff(before, i, d) || (k.phase.Updated? && r == Request(i, d)) by {
          TakenOffAppend(before, RecOf(k), i, d);
        }
      }
      workers[w] := AfterAttempt(k, if k.phase.Updated? then Wrote else Declined);
    }

    method FailOne(w: nat)
      requires Valid() && Enabled(init, v, View(), Fail(w))
      modifies workers
      ensures Valid() && View() == Apply(init, v, old(View()), Fail(w))
    {
      var k := workers[w];
      var after := AfterAttempt(k, Failed);
      var keep := v.updateOnly && after.todo == k.todo && k.phase.count > 1;
      workers[w] := if keep then after.(phase := Stale(k.phase.count)) else after;
    }

    /** Any schedule of steps, executed on the rows, is a run of the step system. */
    method Execute(es: seq<Event>, ghost final: State)
      requires Valid() && Run(init, v, View(), es, final)
      modifies this, workers
      ensures Valid() && View() == final
    {
      for i := 0 to |es|
        invariant Valid() && Run(init, v, View(), es[i..], final)
      {
        assert es[i..][0] == es[i] && es[i..][1..] == es[i + 1..];
        match es[i]
        case Begin(w) => BeginOne(w);
        case LockRow(w) => LockOne(w);
        case Update(w) =>
          var k := workers[w];
          workers[w] := k.(phase := Updated(k.phase.count, k.phase.snap, k.phase.read));
        case Commit(w) => CommitOne(w);
        case Fail(w) => FailOne(w);
      }
    }
  }
}
