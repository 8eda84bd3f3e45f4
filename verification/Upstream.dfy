/**
 The dependency behind the retry storm: a bounded waiting line in front of a fixed number of permits, and work that goes
 on after its client has left. And the failure-ratio breaker of the disciplined client.
 */
module Upstream {
  import opened Common

  datatype Config = Config(capacity: nat, queueLimit: nat)

  /** `Serving(left)` holds a permit; `left` says that the client has gone. */
  datatype Call = Waiting | Serving(left: bool) | Served(left: bool) | Rejected | GaveUp

  datatype State = State(free: nat, waiting: nat, arrivals: nat, rejections: nat, wasted: nat, calls: seq<Call>)

  datatype Event = Arrive | Grant(i: nat) | Leave(i: nat) | Finish(i: nat)

  predicate Enabled(s: State, e: Event) {
    match e
    case Arrive => true
    case Grant(i) => i < |s.calls| && s.calls[i].Waiting? && s.free > 0
    case Leave(i) => i < |s.calls| && (s.calls[i].Waiting? || s.calls[i] == Serving(false))
    case Finish(i) => i < |s.calls| && s.calls[i].Serving?
  }

  function Apply(g: Config, s: State, e: Event): State
    requires Enabled(s, e)
  {
    match e
    case Arrive =>
      if s.waiting >= g.queueLimit then
        s.(arrivals := s.arrivals + 1, rejections := s.rejections + 1, calls := s.calls + [Rejected])
      else s.(arrivals := s.arrivals + 1, waiting := s.waiting + 1, calls := s.calls + [Waiting])
    case Grant(i) =>
      s.(free := s.free - 1, waiting := if s.waiting > 0 then s.waiting - 1 else 0,
         calls := s.calls[i := Serving(false)])
    case Leave(i) =>
      if s.calls[i].Waiting? then
        s.(waiting := if s.waiting > 0 then s.waiting - 1 else 0, calls := s.calls[i := GaveUp])
      else s.(calls := s.calls[i := Serving(true)])
    case Finish(i) =>
      var left := s.calls[i].left;
      s.(free := s.free + 1, wasted := s.wasted + (if left then 1 else 0), calls := s.calls[i := Served(left)])
  }

  predicate Run(g: Config, s: State, es: seq<Event>, s': State)
    decreases |es|
  {
    if es == [] then s == s' else Enabled(s, es[0]) && Run(g, Apply(g, s, es[0]), es[1..], s')
  }

  function Idle(g: Config): State { State(g.capacity, 0, 0, 0, 0, []) }

  /** 1 for a call of the kind counted: waiting, serving, rejected, or served to a client that had left. */
  datatype Kind = IsWaiting | IsServing | IsRejected | IsWasted

  function One(k: Kind, c: Call): int {
    match k
    case IsWaiting => if c.Waiting? then 1 else 0
    case IsServing => if c.Serving? then 1 else 0
    case IsRejected => if c.Rejected? then 1 else 0
    case IsWasted => if c == Served(true) then 1 else 0
  }

  function Ones(k: Kind, calls: seq<Call>): seq<int> {
    seq(|calls|, i requires 0 <= i < |calls| => One(k, calls[i]))
  }

  function Count(k: Kind, calls: seq<Call>): int { Sum(Ones(k, calls)) }

  lemma CountUpdate(k: Kind, calls: seq<Call>, i: nat, c: Call)
    requires i < |calls|
    ensures Count(k, calls[i := c]) == Count(k, calls) - One(k, calls[i]) + One(k, c)
  {
    assert Ones(k, calls[i := c]) == Ones(k, calls)[i := One(k, c)];
    SumUpdate(Ones(k, calls), i, One(k, c));
  }

  lemma CountAppend(k: Kind, calls: seq<Call>, c: Call)
    ensures Count(k, calls + [c]) == Count(k, calls) + One(k, c)
  {
    assert Ones(k, calls + [c]) == Ones(k, calls) + [One(k, c)];
    SumAppend(Ones(k, calls), [One(k, c)]);
    assert [One(k, c)][1..] == [];
  }

  /** Every permit is free or held by a call being served, client or no client; and the counters are what they count. */
  ghost predicate Inv(g: Config, s: State) {
    && s.free + Count(IsServing, s.calls) == g.capacity
    && s.waiting == Count(IsWaiting, s.calls) <= g.queueLimit
    && s.arrivals == |s.calls| && s.rejections == Count(IsRejected, s.calls) && s.wasted == Count(IsWasted, s.calls)
  }

  lemma StepInv(g: Config, s: State, e: Event)
    requires Inv(g, s) && Enabled(s, e)
    ensures Inv(g, Apply(g, s, e))
  {
    var t := Apply(g, s, e);
    forall k: Kind ensures Count(k, t.calls) ==
        if e.Arrive? then Count(k, s.calls) + One(k, t.calls[|s.calls|])
        else Count(k, s.calls) - One(k, s.calls[e.i]) + One(k, t.calls[e.i])
    {
      if e.Arrive? {
        CountAppend(k, s.calls, t.calls[|s.calls|]);
      } else {
        CountUpdate(k, s.calls, e.i, t.calls[e.i]);
      }
    }
    if e.Grant? || e.Leave? {
      SomeCounted(IsWaiting, s.calls, e.i);
    }
  }

  lemma SomeCounted(k: Kind, calls: seq<Call>, i: nat)
    requires i < |calls|
    ensures Count(k, calls) >= One(k, calls[i])
  {
    CountUpdate(k, calls, i, GaveUp);
    SumBounds(Ones(k, calls[i := GaveUp]), 0, 1);
  }

  lemma {:induction false} RunKeepsInv(g: Config, s: State, es: seq<Event>, s': State)
    requires Inv(g, s) && Run(g, s, es, s')
    ensures Inv(g, s')
    decreases |es|
  {
    if es != [] {
      StepInv(g, s, es[0]);
      RunKeepsInv(g, Apply(g, s, es[0]), es[1..], s');
    }
  }

  /** In every run: no permit is lost or doubled by clients that leave, and the waiting line keeps to its limit. */
  lemma PermitsConserved(g: Config, es: seq<Event>, s: State)
    requires Run(g, Idle(g), es, s)
    ensures s.free + Count(IsServing, s.calls) == g.capacity
    ensures s.waiting == Count(IsWaiting, s.calls) <= g.queueLimit
    ensures s.arrivals == |s.calls| && s.rejections == Count(IsRejected, s.calls)
    ensures s.wasted == Count(IsWasted, s.calls)
  {
    IdleInv(g);
    RunKeepsInv(g, Idle(g), es, s);
  }

  lemma IdleInv(g: Config)
    ensures Inv(g, Idle(g))
  {
  }

  /**
   Whoever waits is served in the end: while a call waits, another holds a permit it will give back, or one is free.
   */
  lemma NeverStuck(g: Config, es: seq<Event>, s: State, i: nat)
    requires g.capacity >= 1 && Run(g, Idle(g), es, s) && i < |s.calls| && s.calls[i].Waiting?
    ensures exists e :: Enabled(s, e) && (e.Grant? || e.Finish?)
  {
    PermitsConserved(g, es, s);
    if s.free > 0 {
      assert Enabled(s, Grant(i));
    } else {
      if forall j :: 0 <= j < |s.calls| ==> !s.calls[j].Serving? {
        SumBounds(Ones(IsServing, s.calls), 0, 0);
        assert false;
      }
      var j: nat :| j < |s.calls| && s.calls[j].Serving?;
      assert Enabled(s, Finish(j));
    }
  }

  /** Leaving frees nothing: the permit of a call that was started comes back only when the work is finished. */
  lemma {:induction false} LeavingFreesNothing(g: Config, s: State, es: seq<Event>, s': State)
    requires Run(g, s, es, s') && forall i :: 0 <= i < |es| ==> !es[i].Finish?
    ensures s'.free <= s.free && s'.wasted == s.wasted
    decreases |es|
  {
    if es != [] {
      LeavingFreesNothing(g, Apply(g, s, es[0]), es[1..], s');
    }
  }

  // ---------------------------------------------------------------- work for clients that have left

  /** Finished calls whose client had left before; `left` are those that have so far. */
  function LateFinishes(es: seq<Event>, left: set<nat>): nat
    decreases |es|
  {
    if es == [] then 0
    else
      match es[0]
      case Leave(i) => LateFinishes(es[1..], left + {i})
      case Finish(i) => LateFinishes(es[1..], left) + if i in left then 1 else 0
      case _ => LateFinishes(es[1..], left)
  }

  /** A call being served is marked exactly when its client is among those that have left. */
  ghost predicate Marked(s: State, left: set<nat>) {
    && (forall i: nat :: i < |s.calls| && s.calls[i].Serving? ==> (s.calls[i].left <==> i in left))
    && (forall i: nat :: i < |s.calls| && s.calls[i].Waiting? ==> i !in left)
    && (forall i <- left :: i < |s.calls|)
  }

  lemma {:induction false} WastedRun(g: Config, s: State, es: seq<Event>, s': State, left: set<nat>)
    requires Run(g, s, es, s') && Marked(s, left)
    ensures s'.wasted == s.wasted + LateFinishes(es, left)
    decreases |es|
  {
    if es != [] {
      WastedRun(g, Apply(g, s, es[0]), es[1..], s', if es[0].Leave? then left + {es[0].i} else left);
    }
  }

  /** Over every run, the work wasted is that of the calls which finished after their client had left them. */
  lemma WastedIsLate(g: Config, es: seq<Event>, s: State)
    requires Run(g, Idle(g), es, s)
    ensures s.wasted == LateFinishes(es, {})
  {
    WastedRun(g, Idle(g), es, s, {});
  }

  // ---------------------------------------------------------------- the same steps, in place

  class Server {
    const g: Config
    var free: nat
    var waiting: nat
    var arrivals: nat
    var rejections: nat
    var wasted: nat
    var calls: seq<Call>

    ghost function View(): State
      reads this
    {
      State(free, waiting, arrivals, rejections, wasted, calls)
    }

    constructor (g: Config)
      ensures this.g == g && View() == Idle(g)
    {
      this.g := g;
      free, waiting, arrivals, rejections, wasted, calls := g.capacity, 0, 0, 0, 0, [];
    }

    /** `call` up to its place in the line or its refusal. */
    method ArriveOne() returns (rejected: bool)
      modifies this
      ensures View() == Apply(g, old(View()), Arrive) && (rejected <==> old(waiting) >= g.queueLimit)
    {
      arrivals := arrivals + 1;
      if waiting >= g.queueLimit {
        rejections := rejections + 1;
        calls := calls + [Rejected];
        return true;
      }
      waiting := waiting + 1;
      calls := calls + [Waiting];
      return false;
    }

    method GrantOne(j: nat)
      requires Enabled(View(), Grant(j)) && waiting > 0
      modifies this
      ensures View() == Apply(g, old(View()), Grant(j))
    {
      free, waiting := free - 1, waiting - 1;
      calls := calls[j := Serving(false)];
    }

    method LeaveOne(j: nat)
      requires Enabled(View(), Leave(j)) && (calls[j].Waiting? ==> waiting > 0)
      modifies this
      ensures View() == Apply(g, old(View()), Leave(j))
    {
      if calls[j].Waiting? {
        waiting := waiting - 1;
        calls := calls[j := GaveUp];
      } else {
        calls := calls[j := Serving(true)];
      }
    }

    method FinishOne(j: nat)
      requires Enabled(View(), Finish(j))
      modifies this
      ensures View() == Apply(g, old(View()), Finish(j))
    {
      free := free + 1;
      if calls[j].left {
        wasted := wasted + 1;
      }
      calls := calls[j := Served(calls[j].left)];
    }

    method Do(e: Event)
      requires Inv(g, View()) && Enabled(View(), e)
      modifies this
      ensures View() == Apply(g, old(View()), e)
    {
      if e.Grant? || e.Leave? {
        SomeCounted(IsWaiting, calls, e.i);
      }
      match e
      case Arrive => var _ := ArriveOne();
      case Grant(j) => GrantOne(j);
      case Leave(j) => LeaveOne(j);
      case Finish(j) => FinishOne(j);
    }

    method Execute(es: seq<Event>, ghost final: State)
      requires Inv(g, View()) && Run(g, View(), es, final)
      modifies this
      ensures Inv(g, View()) && View() == final
    {
      for i := 0 to |es|
        invariant Inv(g, View()) && Run(g, View(), es[i..], final)
      {
        assert es[i..][0] == es[i] && es[i..][1..] == es[i + 1..];
        StepInv(g, View(), es[i]);
        Do(es[i]);
      }
    }
  }

  // ---------------------------------------------------------------- the circuit breaker

  /** What happens to a breaker: a verdict, or a caller let in after the cool-down. Histories are newest first. */
  datatype Mark = Verdict(ok: bool, at: real) | HalfOpen(at: real)

  datatype Rule = Rule(threshold: real, minimum: nat, cooldown: real)

  /** How many of the verdicts since the last half-opening were these. */
  function Tally(h: seq<Mark>, ok: bool): nat {
    if h == [] || h[0].HalfOpen? then 0 else Tally(h[1..], ok) + if h[0].ok == ok then 1 else 0
  }

  /** Enough verdicts are in, and more than the threshold of them are failures. */
  predicate Exceeds(rule: Rule, failures: nat, total: nat) {
    total >= rule.minimum && failures as real > Share(rule.threshold, total)
  }

  /** The threshold, once for each verdict. */
  function Share(threshold: real, total: nat): real {
    if total == 0 then 0.0 else Share(threshold, total - 1) + threshold
  }

  lemma {:induction false} ShareIsProduct(threshold: real, total: nat)
    ensures Share(threshold, total) == threshold * total as real
  {
    if total > 0 {
      ShareIsProduct(threshold, total - 1);
    }
  }

  /** The newest mark is a verdict with which there are too many failures. */
  predicate Trips(rule: Rule, h: seq<Mark>) {
    h != [] && h[0].Verdict? && Exceeds(rule, Tally(h, false), Tally(h, true) + Tally(h, false))
  }

  /** When an open breaker opened: at the last verdict that found too many failures, if nobody was let in since. */
  function OpenedAt(rule: Rule, h: seq<Mark>): Option<real> {
    if h == [] || h[0].HalfOpen? then None
    else if Trips(rule, h) then Some(h[0].at)
    else OpenedAt(rule, h[1..])
  }

  predicate Refuses(rule: Rule, h: seq<Mark>, now: real) {
    OpenedAt(rule, h).Some? && now - OpenedAt(rule, h).value < rule.cooldown
  }

  /** The breaker object; `history` records what happened to it for the specification. */
  class CircuitBreaker {
    const rule: Rule
    var failures: nat
    var successes: nat
    var openedAt: Option<real>
    var rejected: nat
    ghost var history: seq<Mark>

    ghost predicate Valid()
      reads this
    {
      failures == Tally(history, false) && successes == Tally(history, true) && openedAt == OpenedAt(rule, history)
    }

    constructor (rule: Rule)
      ensures Valid() && this.rule == rule && history == [] && rejected == 0
    {
      this.rule := rule;
      failures, successes, openedAt, rejected, history := 0, 0, None, 0, [];
    }

    /** Refuses only while open and before the cool-down is over; then the breaker closes and forgets. */
    method Allows(now: real) returns (yes: bool)
      requires Valid()
      modifies this
      ensures Valid() && (yes <==> !Refuses(rule, old(history), now))
      ensures rejected == old(rejected) + if yes then 0 else 1
      ensures history == (if yes && OpenedAt(rule, old(history)).Some? then [HalfOpen(now)] else []) + old(history)
    {
      if openedAt.None? {
        return true;
      }
      if now - openedAt.value >= rule.cooldown {
        openedAt, failures, successes, history := None, 0, 0, [HalfOpen(now)] + history;
        return true;
      }
      rejected := rejected + 1;
      return false;
    }

    method Record(ok: bool, now: real)
      requires Valid()
      modifies this
      ensures Valid() && history == [Verdict(ok, now)] + old(history) && rejected == old(rejected)
    {
      if ok {
        successes := successes + 1;
      } else {
        failures := failures + 1;
      }
      var tooMany := TooManyFailures();
      if tooMany {
        openedAt := Some(now);
      }
      history := [Verdict(ok, now)] + history;
    }

    method TooManyFailures() returns (yes: bool)
      ensures yes == Exceeds(rule, failures, successes + failures)
    {
      var total := successes + failures;
      ShareIsProduct(rule.threshold, total);
      return total >= rule.minimum && failures as real > rule.threshold * total as real;
    }
  }

  /** The n marks from the i-th on, going back to the last half-opening or the very beginning, are all verdicts. */
  ghost predicate Stretch(h: seq<Mark>, i: nat, n: nat) {
    && i + n <= |h| && (forall j :: i <= j < i + n ==> h[j].Verdict?)
    && (i + n == |h| || h[i + n].HalfOpen?)
  }

  /** Failures among n marks from the i-th on. */
  function FailuresIn(h: seq<Mark>, i: nat, n: nat): nat
    requires i + n <= |h|
    decreases n
  {
    if n == 0 then 0 else FailuresIn(h, i + 1, n - 1) + if h[i] == Verdict(false, h[i].at) then 1 else 0
  }

  ghost predicate TripsOver(rule: Rule, h: seq<Mark>, i: nat, n: nat) {
    n >= 1 && Stretch(h, i, n) && TooMany(rule, FailuresIn(h, i, n), n)
  }

  /** Mark i is a verdict that finds at least `minimum` verdicts, and more than the threshold of them failures. */
  ghost predicate TripsAt(rule: Rule, h: seq<Mark>, i: nat) {
    exists n: nat :: TripsOver(rule, h, i, n)
  }

  predicate TooMany(rule: Rule, failures: nat, total: nat) {
    total >= rule.minimum && failures as real > rule.threshold * total as real
  }

  ghost predicate LeavesOpen(rule: Rule, h: seq<Mark>, i: nat)
    requires i < |h|
  {
    h[i].Verdict? && !TripsAt(rule, h, i)
  }

  /** Mark i tripped the breaker, no later one did, and nobody has been let in since. */
  ghost predicate LastTrip(rule: Rule, h: seq<Mark>, i: nat) {
    i < |h| && TripsAt(rule, h, i) && forall j :: 0 <= j < i ==> LeavesOpen(rule, h, j)
  }

  /**
   Over every history: a call is refused exactly within the cool-down of the last verdict that found too many failures
   since the last half-opening. A failure recorded late, while the breaker is open, may be that verdict.
   */
  lemma RefusesExactly(rule: Rule, h: seq<Mark>, now: real)
    ensures Refuses(rule, h, now) <==> exists i: nat :: LastTrip(rule, h, i) && now - h[i].at < rule.cooldown
  {
    if OpenedAt(rule, h).Some? {
      var i := TripOf(rule, h);
      forall j: nat | LastTrip(rule, h, j) ensures j == i {
        OneLastTrip(rule, h, i, j);
      }
    } else {
      forall j: nat ensures !LastTrip(rule, h, j) {
        if LastTrip(rule, h, j) {
          TripOpens(rule, h, j);
        }
      }
    }
  }

  lemma OneLastTrip(rule: Rule, h: seq<Mark>, i: nat, j: nat)
    requires LastTrip(rule, h, i) && LastTrip(rule, h, j)
    ensures i == j
  {
    assert i < j ==> LeavesOpen(rule, h, i);
    assert j < i ==> LeavesOpen(rule, h, j);
  }

  /** The marks of h[1..] are those of h, one further on. */
  lemma {:induction false} OneOlder(h: seq<Mark>, i: nat, n: nat)
    requires h != [] && i + n < |h|
    ensures FailuresIn(h[1..], i, n) == FailuresIn(h, i + 1, n)
    ensures Stretch(h[1..], i, n) <==> Stretch(h, i + 1, n)
    decreases n
  {
    if n > 0 {
      OneOlder(h, i + 1, n - 1);
    }
    assert forall j :: i <= j < i + n ==> h[1..][j] == h[j + 1];
  }

  lemma Older(rule: Rule, h: seq<Mark>, i: nat)
    requires i + 1 < |h|
    ensures TripsAt(rule, h[1..], i) <==> TripsAt(rule, h, i + 1)
    ensures LeavesOpen(rule, h[1..], i) <==> LeavesOpen(rule, h, i + 1)
  {
    var older, k := h[1..], i + 1;
    if n: nat :| TripsOver(rule, older, i, n) {
      OneOlder(h, i, n);
      assert TripsOver(rule, h, k, n);
    }
    if n: nat :| TripsOver(rule, h, k, n) {
      OneOlder(h, i, n);
      assert TripsOver(rule, older, i, n);
    }
  }

  /** How far back the verdicts since the last half-opening go, and that they are tallied. */
  lemma {:induction false} NewestStretch(h: seq<Mark>) returns (n: nat)
    ensures Stretch(h, 0, n)
    ensures forall m: nat :: Stretch(h, 0, m) ==> m == n
    ensures FailuresIn(h, 0, n) == Tally(h, false) && n == Tally(h, true) + Tally(h, false)
    ensures n == 0 <==> h == [] || h[0].HalfOpen?
  {
    n := 0;
    if h != [] && h[0].Verdict? {
      var older := NewestStretch(h[1..]);
      n := older + 1;
      OneOlder(h, 0, older);
    }
    forall m: nat | Stretch(h, 0, m) ensures m == n {
    }
  }

  lemma TripsNow(rule: Rule, h: seq<Mark>)
    requires h != []
    ensures Trips(rule, h) <==> TripsAt(rule, h, 0)
  {
    var n := NewestStretch(h);
    ShareIsProduct(rule.threshold, n);
    if Trips(rule, h) {
      assert TripsOver(rule, h, 0, n);
    }
  }

  /** An open breaker was opened by a verdict. */
  lemma {:induction false} TripOf(rule: Rule, h: seq<Mark>) returns (i: nat)
    requires OpenedAt(rule, h).Some?
    ensures LastTrip(rule, h, i) && h[i].at == OpenedAt(rule, h).value
  {
    TripsNow(rule, h);
    if Trips(rule, h) {
      i := 0;
    } else {
      var older := TripOf(rule, h[1..]);
      i := older + 1;
      Older(rule, h, older);
      forall j | 0 <= j < i ensures LeavesOpen(rule, h, j) {
        if j > 0 {
          Older(rule, h, j - 1);
          assert LeavesOpen(rule, h[1..], j - 1);
        }
      }
    }
  }

  /** And a verdict that tripped it keeps it open as long as nobody is let in. */
  lemma {:induction false} TripOpens(rule: Rule, h: seq<Mark>, i: nat)
    requires LastTrip(rule, h, i)
    ensures OpenedAt(rule, h).Some?
    decreases i
  {
    TripsNow(rule, h);
    if i > 0 {
      assert LeavesOpen(rule, h, 0);
      Older(rule, h, i - 1);
      forall j | 0 <= j < i - 1 ensures LeavesOpen(rule, h[1..], j) {
        Older(rule, h, j);
        assert LeavesOpen(rule, h, j + 1);
      }
      TripOpens(rule, h[1..], i - 1);
    }
  }

  /** A failure that comes in right after the breaker tripped moves its opening time, whoever made the call. */
  lemma LateFailureReopens(rule: Rule, h: seq<Mark>, at: real)
    requires Trips(rule, h) && rule.threshold <= 1.0
    ensures OpenedAt(rule, [Verdict(false, at)] + h) == Some(at)
  {
    assert ([Verdict(false, at)] + h)[1..] == h;
  }
}
