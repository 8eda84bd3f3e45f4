/**
 The `/order` endpoint: three upstream calls in a row under a flat timeout, under a deadline
 budget, or under the deadline with retries, a retry budget and a circuit breaker.

 Time passes only at awaits. A call given a timeout t ends within t, and at once when t is
 not positive; upstream latencies, answers and jitter are arbitrary. At each await
 other requests may use the shared retry budget and breaker in any way.
 */
module OrderHandler {
  import opened Common
  import TB = TokenBucket

  datatype Profile = Flat | Budget | Full

  datatype Response = Done | UpstreamError(hop: nat) | TooLate(hop: nat) | BreakerOpen(hop: nat)

  /** A place in the handler's loops: hop, attempt, how many awaits came before, and the time. */
  datatype Slot = Slot(hop: nat, attempt: nat, tick: nat, at: real)

  /** One upstream call: where it was made, its timeout, when it ended, its verdict. */
  datatype Call = Call(slot: Slot, slice: real, end: real, ok: bool)

  const BUDGET_TOTAL: real := 3.0
  const CAP: real := 1.0
  const FLAT_TIMEOUT: real := 5.0

  function Least(x: real, y: real): real { if x <= y then x else y }

  function Most(x: real, y: real): real { if x <= y then y else x }

  // ---------------------------------------------------------------- the breaker

  /**
   What happens to a breaker: a call fails, a call succeeds, or a caller is let in after the cool-down. Histories are
   newest first.
   */
  datatype Mark = Failure(at: real) | Success(at: real) | HalfOpen(at: real)

  /** How many failures there have been since anything else happened. */
  function Streak(h: seq<Mark>): (n: nat)
    ensures n <= |h| && (forall i :: 0 <= i < n ==> h[i].Failure?) && (n < |h| ==> !h[n].Failure?)
  {
    if h == [] || !h[0].Failure? then 0 else 1 + Streak(h[1..])
  }

  /** Failures in a row that open the breaker: one is enough after a half-opening. */
  function Needed(threshold: nat, h: seq<Mark>): nat {
    if Streak(h) < |h| && h[Streak(h)].HalfOpen? then 1 else threshold
  }

  predicate Tripped(threshold: nat, h: seq<Mark>) {
    Streak(h) >= Needed(threshold, h)
  }

  /** When the breaker opened: at the failure that completed the row, not at later ones. */
  function TrippedAt(threshold: nat, h: seq<Mark>): real
    requires threshold >= 1 && Tripped(threshold, h)
  {
    h[Streak(h) - Needed(threshold, h)].at
  }

  predicate Refuses(threshold: nat, coolDown: real, h: seq<Mark>, now: real)
    requires threshold >= 1
  {
    Tripped(threshold, h) && now - TrippedAt(threshold, h) <= coolDown
  }

  /** A half-opening comes after the cool-down of an open breaker. */
  predicate Lawful(threshold: nat, coolDown: real, h: seq<Mark>)
    requires threshold >= 1
  {
    h == [] ||
    (Lawful(threshold, coolDown, h[1..]) &&
     (h[0].HalfOpen? ==> Tripped(threshold, h[1..]) && h[0].at - TrippedAt(threshold, h[1..]) > coolDown))
  }

  /** The breaker object; `history` records what happened to it for the specification. */
  class Breaker {
    const threshold: nat
    const coolDown: real
    var failures: int
    var openedAt: real
    ghost var history: seq<Mark>

    ghost predicate Valid()
      reads this
    {
      && threshold >= 1 && Lawful(threshold, coolDown, history)
      && failures - threshold == Streak(history) - Needed(threshold, history)
      && (Tripped(threshold, history) ==> openedAt == TrippedAt(threshold, history))
    }

    constructor (threshold: nat, coolDown: real)
      requires threshold >= 1
      ensures Valid() && this.threshold == threshold && this.coolDown == coolDown && history == []
    {
      this.threshold, this.coolDown := threshold, coolDown;
      failures, openedAt, history := 0, 0.0, [];
    }

    /**
     Refuses exactly while the failures that opened the breaker are the last thing recorded and the cool-down runs.
     */
    method Allows(now: real) returns (yes: bool)
      requires Valid()
      modifies this
      ensures Valid() && (yes <==> !Refuses(threshold, coolDown, old(history), now))
      ensures history == (if yes && Tripped(threshold, old(history)) then [HalfOpen(now)] else []) + old(history)
    {
      if failures < threshold {
        return true;
      }
      if now - openedAt > coolDown {
        failures := threshold - 1;
        history := [HalfOpen(now)] + history;
        return true;
      }
      return false;
    }

    method Record(ok: bool, now: real)
      requires Valid()
      modifies this
      ensures Valid() && history == [if ok then Success(now) else Failure(now)] + old(history)
    {
      OneMoreVerdict(threshold, history, ok, now);
      if ok {
        failures := 0;
      } else {
        if failures == 0 {
          openedAt := now;
        }
        failures := failures + 1;
        if failures == threshold {
          openedAt := now;
        }
      }
      history := [if ok then Success(now) else Failure(now)] + history;
    }
  }

  lemma OneMoreVerdict(threshold: nat, h: seq<Mark>, ok: bool, now: real)
    requires threshold >= 1
    ensures var more := [if ok then Success(now) else Failure(now)] + h;
            if ok then Streak(more) == 0 && Needed(threshold, more) == threshold
            else
              && Streak(more) == Streak(h) + 1 && Needed(threshold, more) == Needed(threshold, h)
              && (Tripped(threshold, more) ==>
                   TrippedAt(threshold, more) == if Tripped(threshold, h) then TrippedAt(threshold, h) else now)
  {
    assert ([if ok then Success(now) else Failure(now)] + h)[1..] == h;
  }

  /** Mark i opened the breaker: one failure after a half-opening, or the last of a row of `threshold`. */
  ghost predicate Trips(threshold: nat, h: seq<Mark>, i: nat) {
    i < |h| && h[i].Failure? &&
    ((i + 1 < |h| && h[i + 1].HalfOpen?) ||
     (i + threshold <= |h| && (forall j :: i <= j < i + threshold ==> h[j].Failure?) &&
      (i + threshold == |h| || h[i + threshold].Success?)))
  }

  ghost predicate FailuresAfter(h: seq<Mark>, i: nat) {
    forall j :: 0 <= j < i && j < |h| ==> h[j].Failure?
  }

  /**
   Over every history: a call is refused exactly when some failure opened the breaker, only failures followed it,
   and it is within the cool-down.
   */
  lemma RefusesExactly(threshold: nat, coolDown: real, h: seq<Mark>, now: real)
    requires threshold >= 1
    ensures Refuses(threshold, coolDown, h, now) <==>
            exists i: nat :: Trips(threshold, h, i) && FailuresAfter(h, i) && now - h[i].at <= coolDown
  {
    if Tripped(threshold, h) {
      assert Trips(threshold, h, Streak(h) - Needed(threshold, h));
      assert FailuresAfter(h, Streak(h) - Needed(threshold, h));
    }
    forall i: nat | Trips(threshold, h, i) && FailuresAfter(h, i)
      ensures Tripped(threshold, h) && i == Streak(h) - Needed(threshold, h)
    {
      TripIsAtStreak(threshold, h, i);
    }
  }

  lemma TripIsAtStreak(threshold: nat, h: seq<Mark>, i: nat)
    requires threshold >= 1 && Trips(threshold, h, i) && FailuresAfter(h, i)
    ensures Tripped(threshold, h) && i == Streak(h) - Needed(threshold, h)
  {
    assert i < Streak(h);
    if i + 1 < |h| && h[i + 1].HalfOpen? {
      assert Streak(h) == i + 1;
    } else {
      assert Streak(h) == i + threshold;
    }
  }

  /** The history after callers ask at these times, no verdict coming in, and how many of them pass. */
  function Asked(threshold: nat, coolDown: real, h: seq<Mark>, asks: seq<real>): (r: (seq<Mark>, nat))
    requires threshold >= 1
    decreases |asks|
  {
    if asks == [] then (h, 0)
    else if Refuses(threshold, coolDown, h, asks[0]) then Asked(threshold, coolDown, h, asks[1..])
    else
      var next := if Tripped(threshold, h) then [HalfOpen(asks[0])] + h else h;
      var (after, passed) := Asked(threshold, coolDown, next, asks[1..]);
      (after, passed + 1)
  }

  /** How many callers in a row ask within the cool-down. */
  function TooEarly(coolDown: real, since: real, asks: seq<real>): (n: nat)
    ensures n <= |asks| && (n < |asks| ==> asks[n] - since > coolDown)
    ensures forall i :: 0 <= i < n ==> asks[i] - since <= coolDown
  {
    if asks == [] || asks[0] - since > coolDown then 0 else 1 + TooEarly(coolDown, since, asks[1..])
  }

  /**
   Half-open is not "let one through": as long as no verdict comes in, the callers that pass an open breaker are the
   first to ask after the cool-down, which half-opens it, and everybody after that.
   */
  lemma {:induction false} HalfOpenAdmitsEveryone(threshold: nat, coolDown: real, h: seq<Mark>, asks: seq<real>)
    requires threshold >= 1 && Tripped(threshold, h)
    ensures var (after, passed) := Asked(threshold, coolDown, h, asks);
            var early := TooEarly(coolDown, TrippedAt(threshold, h), asks);
            passed == |asks| - early && after == if early == |asks| then h else [HalfOpen(asks[early])] + h
    decreases |asks|
  {
    if asks != [] {
      if Refuses(threshold, coolDown, h, asks[0]) {
        HalfOpenAdmitsEveryone(threshold, coolDown, h, asks[1..]);
      } else {
        ClosedAdmits(threshold, coolDown, [HalfOpen(asks[0])] + h, asks[1..]);
      }
    }
  }

  lemma {:induction false} ClosedAdmits(threshold: nat, coolDown: real, h: seq<Mark>, asks: seq<real>)
    requires threshold >= 1 && !Tripped(threshold, h)
    ensures Asked(threshold, coolDown, h, asks) == (h, |asks|)
    decreases |asks|
  {
    if asks != [] {
      ClosedAdmits(threshold, coolDown, h, asks[1..]);
    }
  }

  /** And a breaker gets there: after `threshold` failures and a cool-down, two callers in a row are let in. */
  method HalfOpens(threshold: nat, coolDown: real) returns (breaker: Breaker, first: bool, second: bool)
    requires threshold >= 1 && coolDown >= 0.0
    ensures first && second && breaker.Valid() && breaker.threshold == threshold && breaker.coolDown == coolDown
    ensures breaker.history != [] && breaker.history[0].HalfOpen?
  {
    breaker := new Breaker(threshold, coolDown);
    for i := 0 to threshold
      invariant breaker.Valid() && breaker.threshold == threshold && breaker.coolDown == coolDown
      invariant fresh(breaker) && |breaker.history| == i
      invariant forall j :: 0 <= j < i ==> breaker.history[j] == Failure(0.0)
    {
      breaker.Record(false, 0.0);
    }
    first := breaker.Allows(coolDown + 1.0);
    second := breaker.Allows(coolDown + 1.0);
  }

  /** On a clock that does not go back, two half-openings are more than a cool-down apart. */
  lemma {:induction false} HalfOpeningsApart(threshold: nat, coolDown: real, h: seq<Mark>, i: nat, j: nat)
    requires threshold >= 1 && Lawful(threshold, coolDown, h)
    requires forall m, n :: 0 <= m <= n < |h| ==> h[n].at <= h[m].at
    requires i < j < |h| && h[i].HalfOpen? && h[j].HalfOpen?
    ensures h[i].at - h[j].at > coolDown
    decreases |h|
  {
    var older := h[1..];
    if i > 0 {
      HalfOpeningsApart(threshold, coolDown, older, i - 1, j - 1);
    } else {
      var t := Streak(older) - Needed(threshold, older);
      assert older[j - 1].HalfOpen? && Streak(older) <= j - 1;
      assert older[t] == h[t + 1] && t + 1 < j;
    }
  }

  // ---------------------------------------------------------------- the environment

  datatype Op = BudgetRequest | BudgetRetry | BreakerAllows(at: real) | BreakerRecord(ok: bool, at: real)

  /** Arbitrary behaviour of the world at the i-th await; `draw(i, x)` is a number drawn between 0 and x. */
  datatype Env = Env(latency: nat -> real, answer: nat -> bool, draw: (nat, real) -> real, others: nat -> seq<Op>)

  ghost predicate Plausible(env: Env) {
    && (forall i :: env.latency(i) >= 0.0)
    && (forall i, x :: x >= 0.0 ==> 0.0 <= env.draw(i, x) <= x)
  }

  /** No other request uses the budget and the breaker meanwhile. */
  ghost predicate Alone(env: Env) {
    forall i :: env.others(i) == []
  }

  /** Since h the budget has seen so many more requests and granted so many more retries; more only by others. */
  ghost predicate Spent(h: seq<TB.Call>, later: seq<TB.Call>, requests: int, grants: int, alone: bool) {
    && TB.Requests(later) >= TB.Requests(h) + requests && TB.Grants(later) >= TB.Grants(h) + grants
    && (alone ==> TB.Requests(later) == TB.Requests(h) + requests && TB.Grants(later) == TB.Grants(h) + grants)
  }

  function Verdicts(h: seq<Mark>): nat {
    if h == [] then 0 else Verdicts(h[1..]) + if h[0].HalfOpen? then 0 else 1
  }

  /** Since h the breaker has seen so many more verdicts; more only by others. */
  ghost predicate Judged(h: seq<Mark>, later: seq<Mark>, n: int, alone: bool) {
    Verdicts(later) >= Verdicts(h) + n && (alone ==> Verdicts(later) == Verdicts(h) + n)
  }

  lemma OneMoreMark(h: seq<Mark>, mark: Mark)
    ensures Verdicts([mark] + h) == Verdicts(h) + if mark.HalfOpen? then 0 else 1
  {
    assert ([mark] + h)[1..] == h;
  }

  /** One use of the budget or the breaker by another request. */
  method OtherRuns(budget: TB.RetryBudget, breaker: Breaker, op: Op)
    requires budget.Valid() && breaker.Valid()
    modifies budget, breaker
    ensures budget.Valid() && breaker.Valid()
    ensures Spent(old(budget.history), budget.history, 0, 0, false)
    ensures Judged(old(breaker.history), breaker.history, 0, false)
  {
    ghost var h, marks := budget.history, breaker.history;
    match op
    case BudgetRequest =>
      budget.OnRequest();
      TB.OneMoreCall(budget.rule, h, TB.Requested);
    case BudgetRetry =>
      var ok := budget.TrySpend();
      TB.OneMoreCall(budget.rule, h, if ok then TB.Granted else TB.Refused);
    case BreakerAllows(at) =>
      var _ := breaker.Allows(at);
      OneMoreMark(marks, HalfOpen(at));
      assert [] + marks == marks;
    case BreakerRecord(ok, at) =>
      breaker.Record(ok, at);
      OneMoreMark(marks, if ok then Success(at) else Failure(at));
  }

  method OthersRun(budget: TB.RetryBudget, breaker: Breaker, ops: seq<Op>)
    requires budget.Valid() && breaker.Valid()
    modifies budget, breaker
    ensures budget.Valid() && breaker.Valid()
    ensures ops == [] ==> budget.history == old(budget.history) && breaker.history == old(breaker.history)
    ensures Spent(old(budget.history), budget.history, 0, 0, ops == [])
    ensures Judged(old(breaker.history), breaker.history, 0, ops == [])
  {
    for i := 0 to |ops|
      invariant budget.Valid() && breaker.Valid()
      invariant i == 0 ==> budget.history == old(budget.history) && breaker.history == old(breaker.history)
      invariant Spent(old(budget.history), budget.history, 0, 0, false)
      invariant Judged(old(breaker.history), breaker.history, 0, false)
    {
      OtherRuns(budget, breaker, ops[i]);
    }
  }

  /** How long a call of this latency takes under this timeout. */
  function Duration(latency: real, timeout: real): (d: real)
    requires latency >= 0.0
    ensures 0.0 <= d <= Most(timeout, 0.0) && (d < timeout ==> d == latency)
  {
    if timeout <= 0.0 then 0.0 else Least(latency, timeout)
  }

  /** The backoff before an attempt: 0.05, then doubled. */
  function Backoff(attempt: nat): (d: real)
    ensures d >= 0.05
  {
    if attempt <= 1 then 0.05 else 2.0 * Backoff(attempt - 1)
  }

  /** Full jitter draws from 0 to the backoff, itself cut to what remains. */
  function SleepLimit(backoff: real, remaining: real): (x: real)
    requires backoff >= 0.0
    ensures 0.0 <= x <= backoff && x <= Most(0.0, remaining)
  {
    Least(backoff, Most(0.0, remaining))
  }

  /** `Deadline.for_call`. */
  function Slice(expires: real, reserve: real, now: real): real {
    Least(expires - now - reserve, CAP)
  }

  // ---------------------------------------------------------------- the trace of one request

  /** One request: when it began, its deadline and reserve, and the world it meets. */
  datatype Job = Job(start: real, expires: real, reserve: real, env: Env)

  ghost predicate JobOk(j: Job) { Plausible(j.env) && j.reserve >= 0.0 }

  /** The call had what the deadline left when it began, ended within it, and a hop never begins with nothing left. */
  ghost predicate CallOk(j: Job, c: Call, now: real)
    requires JobOk(j)
  {
    && j.start <= c.slot.at <= c.end <= now
    && c.slice == Slice(j.expires, j.reserve, c.slot.at)
    && c.end == c.slot.at + Duration(j.env.latency(c.slot.tick), c.slice)
    && c.ok == j.env.answer(c.slot.tick)
    && (c.slot.attempt == 0 ==> c.slice > 0.0)
    && c.slot.attempt < 3
  }

  /** After a success comes the next hop, at once; after a failure the next attempt, when the backoff has been slept. */
  ghost function After(j: Job, c: Call): Slot
    requires JobOk(j)
  {
    if c.ok then Slot(c.slot.hop + 1, 0, c.slot.tick + 1, c.end)
    else
      Slot(c.slot.hop, c.slot.attempt + 1, c.slot.tick + 2,
           c.end + j.env.draw(c.slot.tick + 1, SleepLimit(Backoff(c.slot.attempt + 1), j.expires - c.end)))
  }

  /** The slot of the next call to make. */
  ghost function NextSlot(j: Job, calls: seq<Call>): Slot
    requires JobOk(j)
  {
    if calls == [] then Slot(0, 0, 0, j.start) else After(j, calls[|calls| - 1])
  }

  /**
   The i-th call is made where the one before it sends the handler, and retried only with more than the reserve
   left.
   */
  ghost predicate LinkAt(j: Job, calls: seq<Call>, i: nat)
    requires JobOk(j) && i < |calls|
  {
    && calls[i].slot == (if i == 0 then Slot(0, 0, 0, j.start) else After(j, calls[i - 1]))
    && (i > 0 && !calls[i - 1].ok ==> j.expires - calls[i - 1].end > j.reserve)
  }

  ghost predicate TraceOk(j: Job, calls: seq<Call>, now: real)
    requires JobOk(j)
  {
    && j.start <= now
    && (forall i :: 0 <= i < |calls| ==> CallOk(j, calls[i], now))
    && (forall i: nat :: i < |calls| ==> LinkAt(j, calls, i))
  }

  ghost predicate EndsWith(calls: seq<Call>, hop: nat, ok: bool) {
    |calls| > 0 && calls[|calls| - 1].slot.hop == hop && calls[|calls| - 1].ok == ok
  }

  lemma TraceAppend(j: Job, calls: seq<Call>, now: real, c: Call)
    requires JobOk(j) && TraceOk(j, calls, now)
    requires c.slot == NextSlot(j, calls) && CallOk(j, c, c.end) && now <= c.slot.at
    requires calls != [] && !calls[|calls| - 1].ok ==> j.expires - calls[|calls| - 1].end > j.reserve
    ensures TraceOk(j, calls + [c], c.end)
  {
    var more := calls + [c];
    forall i: nat | i < |more| ensures LinkAt(j, more, i) {
      assert i < |calls| ==> LinkAt(j, calls, i);
    }
  }

  lemma TraceLater(j: Job, calls: seq<Call>, now: real, later: real)
    requires JobOk(j) && TraceOk(j, calls, now) && now <= later
    ensures TraceOk(j, calls, later)
  {
    forall i | 0 <= i < |calls| ensures CallOk(j, calls[i], later) {
      assert CallOk(j, calls[i], now);
    }
  }

  /** The i-th call is at most the (3 hop + attempt)-th: three hops of three attempts make nine calls. */
  lemma {:induction false} PlaceInTrace(j: Job, calls: seq<Call>, now: real, i: nat)
    requires JobOk(j) && TraceOk(j, calls, now) && i < |calls|
    ensures calls[i].slot.hop <= i <= 3 * calls[i].slot.hop + calls[i].slot.attempt
  {
    assert LinkAt(j, calls, i);
    if i > 0 {
      PlaceInTrace(j, calls, now, i - 1);
      assert CallOk(j, calls[i - 1], now);
    }
  }

  ghost predicate Answered(calls: seq<Call>, h: int) {
    exists i :: 0 <= i < |calls| && calls[i].slot.hop == h && calls[i].ok
  }

  /** Every hop before the one being called has answered. */
  lemma {:induction false} EarlierHopsAnswered(j: Job, calls: seq<Call>, now: real, i: nat, h: nat)
    requires JobOk(j) && TraceOk(j, calls, now) && i < |calls| && h < calls[i].slot.hop
    ensures Answered(calls, h)
  {
    assert LinkAt(j, calls, i);
    if i > 0 && h < calls[i - 1].slot.hop {
      EarlierHopsAnswered(j, calls, now, i - 1, h);
    }
  }

  // ---------------------------------------------------------------- the handler

  /** One attempt: the call and the world at its await. */
  method Attempt(j: Job, calls0: seq<Call>, slot: Slot, budget: TB.RetryBudget, breaker: Breaker)
    returns (calls: seq<Call>, now: real, ok: bool)
    requires JobOk(j) && budget.Valid() && breaker.Valid()
    requires TraceOk(j, calls0, slot.at) && slot == NextSlot(j, calls0) && slot.attempt < 3
    requires slot.attempt == 0 ==> Slice(j.expires, j.reserve, slot.at) > 0.0
    requires calls0 != [] && !calls0[|calls0| - 1].ok ==> j.expires - calls0[|calls0| - 1].end > j.reserve
    modifies budget, breaker
    ensures budget.Valid() && breaker.Valid() && TraceOk(j, calls, now) && Made(calls0, calls, slot, now, ok)
    ensures slot.at <= now && (now == slot.at || now <= j.expires - j.reserve)
    ensures Alone(j.env) ==> budget.history == old(budget.history) && breaker.history == old(breaker.history)
    ensures Spent(old(budget.history), budget.history, 0, 0, Alone(j.env))
    ensures Judged(old(breaker.history), breaker.history, 0, Alone(j.env))
  {
    var slice := Slice(j.expires, j.reserve, slot.at);
    now := slot.at + Duration(j.env.latency(slot.tick), slice);
    ok := j.env.answer(slot.tick);
    var c := Call(slot, slice, now, ok);
    TraceAppend(j, calls0, slot.at, c);
    calls := calls0 + [c];
    OthersRun(budget, breaker, j.env.others(slot.tick));
  }

  /** The call has been made at this slot, and added to the trace. */
  ghost predicate Made(calls0: seq<Call>, calls: seq<Call>, slot: Slot, now: real, ok: bool) {
    && |calls| == |calls0| + 1 && calls[..|calls0|] == calls0 && calls[|calls0|].slot == slot
    && calls[|calls0|].ok == ok && calls[|calls0|].end == now
  }

  /** The call is made and its verdict recorded. */
  method AttemptAndRecord(j: Job, calls0: seq<Call>, slot: Slot, budget: TB.RetryBudget, breaker: Breaker)
    returns (calls: seq<Call>, now: real, ok: bool)
    requires JobOk(j) && budget.Valid() && breaker.Valid()
    requires TraceOk(j, calls0, slot.at) && slot == NextSlot(j, calls0) && slot.attempt < 3
    requires slot.attempt == 0 ==> Slice(j.expires, j.reserve, slot.at) > 0.0
    requires calls0 != [] && !calls0[|calls0| - 1].ok ==> j.expires - calls0[|calls0| - 1].end > j.reserve
    modifies budget, breaker
    ensures budget.Valid() && breaker.Valid() && TraceOk(j, calls, now) && Made(calls0, calls, slot, now, ok)
    ensures slot.at <= now && (now == slot.at || now <= j.expires - j.reserve)
    ensures Alone(j.env) ==> budget.history == old(budget.history)
    ensures Alone(j.env) ==> breaker.history == [if ok then Success(now) else Failure(now)] + old(breaker.history)
    ensures breaker.history != [] && breaker.history[0] == if ok then Success(now) else Failure(now)
    ensures Spent(old(budget.history), budget.history, 0, 0, Alone(j.env))
    ensures Judged(old(breaker.history), breaker.history, 1, Alone(j.env))
  {
    calls, now, ok := Attempt(j, calls0, slot, budget, breaker);
    OneMoreMark(breaker.history, if ok then Success(now) else Failure(now));
    breaker.Record(ok, now);
  }

  /** The breaker is asked, the call made and its verdict recorded. */
  method AttemptIfAllowed(j: Job, calls0: seq<Call>, slot: Slot, budget: TB.RetryBudget, breaker: Breaker)
    returns (calls: seq<Call>, now: real, ok: bool, open: bool)
    requires JobOk(j) && budget.Valid() && breaker.Valid()
    requires TraceOk(j, calls0, slot.at) && slot == NextSlot(j, calls0) && slot.attempt < 3
    requires slot.attempt == 0 ==> Slice(j.expires, j.reserve, slot.at) > 0.0
    requires calls0 != [] && !calls0[|calls0| - 1].ok ==> j.expires - calls0[|calls0| - 1].end > j.reserve
    modifies budget, breaker
    ensures budget.Valid() && breaker.Valid() && TraceOk(j, calls, now)
    ensures if open then calls == calls0 && now == slot.at else Made(calls0, calls, slot, now, ok)
    ensures slot.at <= now && (now == slot.at || now <= j.expires - j.reserve)
    ensures Alone(j.env) ==> budget.history == old(budget.history)
    ensures Alone(j.env) && OnlyFailures(old(breaker.history), slot.attempt) && breaker.threshold >= 3 ==>
              !open && (!ok ==> OnlyFailures(breaker.history, slot.attempt + 1))
    ensures open <==> Refuses(breaker.threshold, breaker.coolDown, old(breaker.history), slot.at)
    ensures Spent(old(budget.history), budget.history, 0, 0, Alone(j.env))
    ensures Judged(old(breaker.history), breaker.history, if open then 0 else 1, Alone(j.env))
  {
    NotYetOpen(breaker.threshold, breaker.history, slot.attempt);
    OneMoreMark(breaker.history, HalfOpen(slot.at));
    assert [] + breaker.history == breaker.history;
    var allowed := breaker.Allows(slot.at);
    if !allowed {
      return calls0, slot.at, false, true;
    }
    calls, now, ok := AttemptAndRecord(j, calls0, slot, budget, breaker);
    open := false;
  }

  ghost predicate OnlyFailures(h: seq<Mark>, n: nat) {
    |h| == n && forall i :: 0 <= i < n ==> h[i].Failure?
  }

  lemma NotYetOpen(threshold: nat, h: seq<Mark>, n: nat)
    ensures OnlyFailures(h, n) && n < threshold ==> !Tripped(threshold, h)
  {
  }

  /** Why a hop is given up after its last call: no attempts left, no time left, or the budget refused. */
  ghost predicate GivenUp(j: Job, last: Call, budget: TB.RetryBudget)
    reads budget
  {
    last.slot.attempt == 2 || j.expires - last.end <= j.reserve ||
    (|budget.history| > 0 && budget.history[0] == TB.Refused)
  }

  /** After a failure with time left: a token from the budget, and if there is one the jittered backoff. */
  method SpendAndSleep(j: Job, calls: seq<Call>, backoff: real, budget: TB.RetryBudget, breaker: Breaker)
    returns (granted: bool, now: real)
    requires JobOk(j) && budget.Valid() && breaker.Valid() && calls != [] && !calls[|calls| - 1].ok
    requires j.expires - calls[|calls| - 1].end > j.reserve
    requires backoff == Backoff(calls[|calls| - 1].slot.attempt + 1)
    modifies budget, breaker
    ensures budget.Valid() && breaker.Valid() && calls[|calls| - 1].end <= now <= j.expires
    ensures if granted then
              var slot := calls[|calls| - 1].slot;
              NextSlot(j, calls) == Slot(slot.hop, slot.attempt + 1, slot.tick + 2, now)
            else now == calls[|calls| - 1].end && GivenUp(j, calls[|calls| - 1], budget)
    ensures granted <==> TB.EveryWindowHasRoom(budget.rule, old(budget.history))
    ensures Alone(j.env) ==>
              budget.history == [if granted then TB.Granted else TB.Refused] + old(budget.history) &&
              breaker.history == old(breaker.history)
    ensures Spent(old(budget.history), budget.history, 0, if granted then 1 else 0, Alone(j.env))
    ensures Judged(old(breaker.history), breaker.history, 0, Alone(j.env))
  {
    var last := calls[|calls| - 1];
    ghost var h := budget.history;
    granted := budget.TrySpend();
    TB.OneMoreCall(budget.rule, h, if granted then TB.Granted else TB.Refused);
    if !granted {
      return false, last.end;
    }
    var tick := last.slot.tick + 1;
    now := last.end + j.env.draw(tick, SleepLimit(backoff, j.expires - last.end));
    OthersRun(budget, breaker, j.env.others(tick));
  }

  /** How one turn of the retry loop ends. */
  datatype Turn = Succeeded | Failed | Open | Again

  /**
   The handler stands at a slot: it is the next one of the trace, and a retry only with more than the reserve left.
   */
  ghost predicate StandsAt(j: Job, calls: seq<Call>, slot: Slot)
    requires JobOk(j)
  {
    && TraceOk(j, calls, slot.at) && slot == NextSlot(j, calls) && slot.at <= j.expires
    && (slot.attempt == 0 ==> Slice(j.expires, j.reserve, slot.at) > 0.0)
    && (calls != [] && !calls[|calls| - 1].ok ==> j.expires - calls[|calls| - 1].end > j.reserve)
  }

  /** Where a turn of this hop leaves the handler. */
  ghost predicate TurnOk(j: Job, calls: seq<Call>, slot: Slot, turn: Turn, hop: nat, budget: TB.RetryBudget)
    requires JobOk(j)
    reads budget
  {
    match turn
    case Open => NextSlot(j, calls).hop == hop && NextSlot(j, calls).at == slot.at
    case Succeeded =>
      EndsWith(calls, hop, true) && slot == NextSlot(j, calls) && slot.hop == hop + 1 && slot.attempt == 0
    case Failed =>
      EndsWith(calls, hop, false) && GivenUp(j, calls[|calls| - 1], budget) && calls[|calls| - 1].end == slot.at
    case Again => StandsAt(j, calls, slot) && slot.hop == hop && slot.attempt < 3
  }

  /** One turn of the retry loop. */
  method TakeTurn(j: Job, calls0: seq<Call>, slot0: Slot, backoff: real, budget: TB.RetryBudget, breaker: Breaker)
    returns (calls: seq<Call>, slot: Slot, turn: Turn)
    requires JobOk(j) && budget.Valid() && breaker.Valid()
    requires StandsAt(j, calls0, slot0) && slot0.attempt < 3 && backoff == Backoff(slot0.attempt + 1)
    modifies budget, breaker
    ensures budget.Valid() && breaker.Valid() && TraceOk(j, calls, slot.at) && slot0.at <= slot.at <= j.expires
    ensures TurnOk(j, calls, slot, turn, slot0.hop, budget)
    ensures turn.Succeeded? ==> slot.tick == slot0.tick + 1
    ensures turn.Again? ==> slot.attempt == slot0.attempt + 1
    ensures Alone(j.env) && OnlyFailures(old(breaker.history), slot0.attempt) && breaker.threshold >= 3 ==>
              !turn.Open? && (turn.Again? ==> OnlyFailures(breaker.history, slot.attempt))
    ensures turn.Open? <==> Refuses(breaker.threshold, breaker.coolDown, old(breaker.history), slot0.at)
    ensures |calls| == |calls0| + if turn.Open? then 0 else 1
    ensures Spent(old(budget.history), budget.history, 0, if turn.Again? then 1 else 0, Alone(j.env))
    ensures Judged(old(breaker.history), breaker.history, if turn.Open? then 0 else 1, Alone(j.env))
  {
    var now, ok, open;
    calls, now, ok, open := AttemptIfAllowed(j, calls0, slot0, budget, breaker);
    slot := Slot(slot0.hop + 1, 0, slot0.tick + 1, now);
    if open {
      return calls, slot, Open;
    }
    if ok {
      return calls, slot, Succeeded;
    }
    if slot0.attempt >= 2 || j.expires - now <= j.reserve {
      return calls, slot, Failed;
    }
    var granted;
    ghost var ended := now;
    granted, now := SpendAndSleep(j, calls, backoff, budget, breaker);
    TraceLater(j, calls, ended, now);
    if !granted {
      return calls, slot, Failed;
    }
    return calls, Slot(slot0.hop, slot0.attempt + 1, slot0.tick + 2, now), Again;
  }

  /** Retries paid for in a hop of so many calls: all calls but the first, and one more that was not or not yet made. */
  function Paid(turn: Turn, made: int): int {
    if turn.Open? || turn.Again? then made else made - 1
  }

  /** The retry loop of one hop. */
  method RetryLoop(j: Job, calls0: seq<Call>, slot0: Slot, budget: TB.RetryBudget, breaker: Breaker)
    returns (calls: seq<Call>, slot: Slot, turn: Turn)
    requires JobOk(j) && budget.Valid() && breaker.Valid()
    requires StandsAt(j, calls0, slot0) && slot0.attempt == 0
    modifies budget, breaker
    ensures budget.Valid() && breaker.Valid() && TraceOk(j, calls, slot.at) && slot0.at <= slot.at <= j.expires
    ensures !turn.Again? && TurnOk(j, calls, slot, turn, slot0.hop, budget)
    ensures Alone(j.env) && old(breaker.history) == [] && breaker.threshold >= 3 ==> !turn.Open?
    ensures |calls| >= |calls0|
    ensures |calls| == |calls0| <==> Refuses(breaker.threshold, breaker.coolDown, old(breaker.history), slot0.at)
    ensures Spent(old(budget.history), budget.history, 0, Paid(turn, |calls| - |calls0|), Alone(j.env))
    ensures Judged(old(breaker.history), breaker.history, |calls| - |calls0|, Alone(j.env))
  {
    ghost var refused := Refuses(breaker.threshold, breaker.coolDown, breaker.history, slot0.at);
    calls, slot, turn := calls0, slot0, Again;
    var backoff := 0.05;
    while turn.Again?
      invariant budget.Valid() && breaker.Valid() && TraceOk(j, calls, slot.at) && slot0.at <= slot.at <= j.expires
      invariant TurnOk(j, calls, slot, turn, slot0.hop, budget)
      invariant turn.Again? ==> backoff == Backoff(slot.attempt + 1)
      invariant Alone(j.env) && old(breaker.history) == [] && breaker.threshold >= 3 ==>
                  !turn.Open? && (turn.Again? ==> OnlyFailures(breaker.history, slot.attempt))
      invariant |calls| >= |calls0| && (turn.Again? ==> slot.attempt == |calls| - |calls0|)
      invariant |calls| == |calls0| ==> turn.Again? || turn.Open?
      invariant |calls| == |calls0| && turn.Again? ==> breaker.history == old(breaker.history) && slot.at == slot0.at
      invariant if |calls| > |calls0| then !refused else turn.Open? ==> refused
      invariant Spent(old(budget.history), budget.history, 0, Paid(turn, |calls| - |calls0|), Alone(j.env))
      invariant Judged(old(breaker.history), breaker.history, |calls| - |calls0|, Alone(j.env))
      decreases turn.Again?, 3 - slot.attempt
    {
      calls, slot, turn := TakeTurn(j, calls, slot, backoff, budget, breaker);
      backoff := backoff * 2.0;
    }
  }

  /**
   One hop under `full`. With nobody else about, a breaker that starts fresh stays closed, and the budget is used for
   nothing but this hop.
   */
  method FullHop(j: Job, calls0: seq<Call>, slot0: Slot, budget: TB.RetryBudget, breaker: Breaker)
    returns (calls: seq<Call>, slot: Slot, turn: Turn)
    requires JobOk(j) && budget.Valid() && breaker.Valid()
    requires StandsAt(j, calls0, slot0) && slot0.attempt == 0
    modifies budget, breaker
    ensures budget.Valid() && breaker.Valid() && TraceOk(j, calls, slot.at) && slot0.at <= slot.at <= j.expires
    ensures !turn.Again? && TurnOk(j, calls, slot, turn, slot0.hop, budget)
    ensures Alone(j.env) && old(breaker.history) == [] && breaker.threshold >= 3 ==> !turn.Open?
    ensures |calls| >= |calls0|
    ensures |calls| == |calls0| <==> Refuses(breaker.threshold, breaker.coolDown, old(breaker.history), slot0.at)
    ensures Spent(old(budget.history), budget.history, 1, Paid(turn, |calls| - |calls0|), Alone(j.env))
    ensures Judged(old(breaker.history), breaker.history, |calls| - |calls0|, Alone(j.env))
  {
    TB.OneMoreCall(budget.rule, budget.history, TB.Requested);
    budget.OnRequest();
    calls, slot, turn := RetryLoop(j, calls0, slot0, budget, breaker);
  }

  /** What one request did, as a trace: where it stopped, why and when. */
  ghost predicate Outcome(j: Job, response: Response, calls: seq<Call>, end: real)
    requires JobOk(j)
  {
    match response
    case Done => EndsWith(calls, 2, true) && end == NextSlot(j, calls).at
    case TooLate(hop) =>
      hop < 3 && NextSlot(j, calls) == Slot(hop, 0, NextSlot(j, calls).tick, end) && j.expires - end <= j.reserve
    case UpstreamError(hop) => hop < 3 && EndsWith(calls, hop, false) && end == calls[|calls| - 1].end
    case BreakerOpen(hop) => hop < 3 && NextSlot(j, calls).hop == hop && end == NextSlot(j, calls).at
  }

  lemma AtMostNine(j: Job, response: Response, calls: seq<Call>, end: real)
    requires JobOk(j) && TraceOk(j, calls, end) && Outcome(j, response, calls, end)
    ensures |calls| <= 9
  {
    if calls != [] {
      PlaceInTrace(j, calls, end, |calls| - 1);
      assert CallOk(j, calls[|calls| - 1], end);
    }
  }

  /** The handler begins hop number `hop`, with the hops before it answered. */
  ghost predicate BeginsHop(j: Job, calls: seq<Call>, slot: Slot, hop: nat)
    requires JobOk(j)
  {
    && TraceOk(j, calls, slot.at) && slot == NextSlot(j, calls) && slot.hop == hop && slot.attempt == 0
    && (calls != [] ==> calls[|calls| - 1].ok) && (hop > 0 ==> EndsWith(calls, hop - 1, true))
  }

  /** One hop with something left to give it: one call under `budget`, the retry loop under `full`. */
  method OneHop(full: bool, j: Job, calls0: seq<Call>, slot0: Slot, budget: TB.RetryBudget, breaker: Breaker)
    returns (calls: seq<Call>, slot: Slot, turn: Turn)
    requires JobOk(j) && budget.Valid() && breaker.Valid()
    requires BeginsHop(j, calls0, slot0, slot0.hop) && Slice(j.expires, j.reserve, slot0.at) > 0.0
    modifies budget, breaker
    ensures budget.Valid() && breaker.Valid() && TraceOk(j, calls, slot.at) && slot0.at <= slot.at <= j.expires
    ensures turn.Succeeded? ==> BeginsHop(j, calls, slot, slot0.hop + 1)
    ensures turn.Open? ==> full && NextSlot(j, calls).hop == slot0.hop && NextSlot(j, calls).at == slot.at
    ensures turn.Failed? ==> EndsWith(calls, slot0.hop, false) && calls[|calls| - 1].end == slot.at
    ensures !turn.Again? && (!full ==> |calls| == |calls0| + 1 && slot.at <= j.expires - j.reserve)
    ensures |calls| >= |calls0|
    ensures full ==> (|calls| == |calls0| <==>
                        Refuses(breaker.threshold, breaker.coolDown, old(breaker.history), slot0.at))
    ensures var made := |calls| - |calls0|;
            && Spent(old(budget.history), budget.history, if full then 1 else 0,
                     if full then Paid(turn, made) else 0, Alone(j.env))
            && Judged(old(breaker.history), breaker.history, if full then made else 0, Alone(j.env))
  {
    if full {
      calls, slot, turn := FullHop(j, calls0, slot0, budget, breaker);
    } else {
      var now, ok;
      calls, now, ok := Attempt(j, calls0, slot0, budget, breaker);
      slot := Slot(slot0.hop + 1, 0, slot0.tick + 1, now);
      turn := if ok then Succeeded else Failed;
    }
  }

  function HopsBegun(r: Response): nat {
    match r
    case Done => 3
    case TooLate(hop) => hop
    case UpstreamError(hop) => hop + 1
    case BreakerOpen(hop) => hop + 1
  }

  /** The three hops under `budget` or `full`, with `total` seconds to answer in. */
  method WithDeadline(full: bool, total: real, j: Job, budget: TB.RetryBudget, breaker: Breaker)
    returns (response: Response, calls: seq<Call>, end: real)
    requires JobOk(j) && j.expires == j.start + total && budget.Valid() && breaker.Valid()
    modifies budget, breaker
    ensures budget.Valid() && breaker.Valid() && TraceOk(j, calls, end)
    ensures Outcome(j, response, calls, end)
    // never later than the deadline (or than the start, when that is already past it)
    ensures end <= Most(j.start, j.expires)
    // a call-only budget also leaves the reserve unspent
    ensures !full && total >= j.reserve ==> end <= j.expires - j.reserve
    // no call at all when there is nothing beyond the reserve
    ensures total <= j.reserve ==> calls == [] && response == TooLate(0) && end == j.start
    ensures !full ==> !response.BreakerOpen? && |calls| <= 3
    ensures |calls| <= 9
    // under `full` each hop begun is a request, each call but the first of a hop is paid for, each verdict recorded
    ensures var begun := HopsBegun(response);
            && Spent(old(budget.history), budget.history, if full then begun else 0,
                     if full then |calls| - begun + (if response.BreakerOpen? then 1 else 0) else 0, Alone(j.env))
            && Judged(old(breaker.history), breaker.history, if full then |calls| else 0, Alone(j.env))
    ensures full && total > j.reserve && Refuses(breaker.threshold, breaker.coolDown, old(breaker.history), j.start) ==>
              response == BreakerOpen(0) && calls == []
  {
    ghost var refused := Refuses(breaker.threshold, breaker.coolDown, breaker.history, j.start);
    var slot := Slot(0, 0, 0, j.start);
    calls := [];
    response := Done;
    for hop := 0 to 3
      invariant budget.Valid() && breaker.Valid() && BeginsHop(j, calls, slot, hop)
      invariant hop > 0 ==> total > j.reserve
      invariant slot.at <= Most(j.start, j.expires) && (hop == 0 ==> slot.at == j.start && calls == [])
      invariant !full && total >= j.reserve ==> slot.at <= j.expires - j.reserve
      invariant !full ==> |calls| == hop
      invariant response == Done
      invariant Spent(old(budget.history), budget.history, if full then hop else 0, if full then |calls| - hop else 0,
                      Alone(j.env))
      invariant Judged(old(breaker.history), breaker.history, if full then |calls| else 0, Alone(j.env))
      invariant hop == 0 ==> breaker.history == old(breaker.history)
      invariant hop > 0 && full ==> !refused
    {
      if Slice(j.expires, j.reserve, slot.at) <= 0.0 {
        response := TooLate(hop);
        break;
      }
      var turn;
      calls, slot, turn := OneHop(full, j, calls, slot, budget, breaker);
      if !turn.Succeeded? {
        response := if turn.Open? then BreakerOpen(hop) else UpstreamError(hop);
        break;
      }
    }
    end := slot.at;
    AtMostNine(j, response, calls, end);
  }

  /** The total comes from the caller's header when it parses, and never exceeds the service's own. */
  function Total(header: Option<real>): (t: real)
    ensures t <= BUDGET_TOTAL && (header.None? ==> t == BUDGET_TOTAL)
    ensures header.Some? ==> t <= header.value && (t == header.value || t == BUDGET_TOTAL)
  {
    if header.Some? then Least(BUDGET_TOTAL, header.value) else BUDGET_TOTAL
  }

  /** What n calls in a row take, each under the flat timeout. */
  function FlatTime(env: Env, n: nat): (d: real)
    requires forall i :: env.latency(i) >= 0.0
    ensures 0.0 <= d <= n as real * FLAT_TIMEOUT
    ensures (forall i :: env.latency(i) >= FLAT_TIMEOUT) ==> d == n as real * FLAT_TIMEOUT
  {
    if n == 0 then 0.0 else FlatTime(env, n - 1) + Duration(env.latency(n - 1), FLAT_TIMEOUT)
  }

  /** Under `flat` each call has five seconds, whatever came before: three of them may take fifteen. */
  method FlatOrder(start: real, env: Env) returns (response: Response, end: real, made: nat)
    requires Plausible(env)
    ensures end == start + FlatTime(env, made) && made <= 3
    ensures response == Done <==> made == 3 && env.answer(0) && env.answer(1) && env.answer(2)
    ensures response != Done ==> made > 0 && response == UpstreamError(made - 1) && !env.answer(made - 1)
  {
    end, made := start, 0;
    for hop := 0 to 3
      invariant made == hop && end == start + FlatTime(env, hop)
      invariant forall i :: 0 <= i < hop ==> env.answer(i)
    {
      end, made := end + Duration(env.latency(hop), FLAT_TIMEOUT), hop + 1;
      if !env.answer(hop) {
        return UpstreamError(hop), end, made;
      }
    }
    return Done, end, made;
  }

  /** The endpoint for the profiles whose calls all end. */
  method Order(profile: Profile, header: Option<real>, reserve: real, start: real,
               env: Env, budget: TB.RetryBudget, breaker: Breaker)
    returns (response: Response, end: real, made: nat, ghost calls: seq<Call>)
    requires Plausible(env) && reserve >= 0.0 && budget.Valid() && breaker.Valid()
    modifies budget, breaker
    ensures budget.Valid() && breaker.Valid()
    ensures profile == Flat ==> made <= 3 && end == start + FlatTime(env, made) <= start + 15.0
    // the trace is that of a job with this deadline, and only `full` uses the budget and the breaker
    ensures profile != Flat ==>
              var j := Job(start, start + Total(header), reserve, env);
              made == |calls| && TraceOk(j, calls, end) && Outcome(j, response, calls, end)
    ensures Alone(env) ==>
              && TB.Requests(budget.history) ==
                 TB.Requests(old(budget.history)) + (if profile == Full then HopsBegun(response) else 0)
              && Verdicts(breaker.history) == Verdicts(old(breaker.history)) + if profile == Full then made else 0
    ensures profile == Budget ==> made <= 3
    ensures profile == Full ==> made <= 9
    ensures profile != Flat ==> start <= end <= Most(start, start + Total(header))
    ensures profile != Flat && Total(header) <= reserve ==> made == 0 && end == start && response == TooLate(0)
    ensures profile == Budget && Total(header) >= reserve ==> end <= start + Total(header) - reserve
  {
    if profile == Flat {
      response, end, made := FlatOrder(start, env);
      calls := [];
    } else {
      var j := Job(start, start + Total(header), reserve, env);
      var trace;
      response, trace, end := WithDeadline(profile == Full, Total(header), j, budget, breaker);
      made, calls := |trace|, trace;
    }
  }

  // ---------------------------------------------------------------- the slice of a retry

  /**
   In every trace a retry is decided with more than the reserve left, but it sleeps first, and is given what the sleep
   left above the reserve: zero or less exactly when the sleep was at least that, and then that was
   no more than the backoff.
   */
  lemma RetrySliceInTrace(j: Job, calls: seq<Call>, now: real, i: nat)
    requires JobOk(j) && TraceOk(j, calls, now) && 0 < i < |calls| && calls[i].slot.attempt > 0
    ensures var above, slept := j.expires - calls[i - 1].end - j.reserve, calls[i].slot.at - calls[i - 1].end;
            && above > 0.0 && !calls[i - 1].ok && calls[i - 1].slot.attempt + 1 == calls[i].slot.attempt
            && 0.0 <= slept <= Backoff(calls[i].slot.attempt) == (if calls[i].slot.attempt == 1 then 0.05 else 0.1)
            && (calls[i].slice <= 0.0 <==> above <= slept)
            && (calls[i].slice <= 0.0 ==> above <= Backoff(calls[i].slot.attempt))
  {
    assert LinkAt(j, calls, i) && CallOk(j, calls[i], now);
    assert Backoff(2) == 2.0 * Backoff(1);
  }

  /** In every trace a call is cut short only after a full second or where the reserve begins. */
  lemma CutWhereItShould(j: Job, calls: seq<Call>, now: real, i: nat)
    requires JobOk(j) && TraceOk(j, calls, now) && i < |calls|
    ensures var c, reserved := calls[i], j.expires - j.reserve;
            var took, latency := c.end - c.slot.at, j.env.latency(c.slot.tick);
            && 0.0 <= took <= latency && took <= 1.0 && (c.slot.at <= reserved ==> c.end <= reserved)
            && (took < latency ==> took == 1.0 || c.end == reserved || (took == 0.0 && c.slot.at > reserved))
  {
    assert CallOk(j, calls[i], now);
  }

  /** Sleeping x after this failed call is possible and leaves the retry nothing. */
  ghost predicate SleepsTooLong(j: Job, c: Call, x: real) {
    && 0.0 <= x <= SleepLimit(Backoff(c.slot.attempt + 1), j.expires - c.end)
    && Slice(j.expires, j.reserve, c.end + x) <= 0.0
  }

  /** Some draw makes a retry start too late exactly when what is left above the reserve is no more than the backoff. */
  lemma RetryMayStartTooLate(j: Job, c: Call)
    requires JobOk(j) && !c.ok && j.expires - c.end > j.reserve
    ensures (exists x :: SleepsTooLong(j, c, x)) <==> j.expires - c.end - j.reserve <= Backoff(c.slot.attempt + 1)
    ensures Backoff(0 + 1) == 0.05 && Backoff(1 + 1) == 0.1
  {
    assert Backoff(1 + 1) == 2.0 * Backoff(1);
    if j.expires - c.end - j.reserve <= Backoff(c.slot.attempt + 1) {
      assert SleepsTooLong(j, c, SleepLimit(Backoff(c.slot.attempt + 1), j.expires - c.end));
    }
  }

  /** A run of the retry loop that makes such a call: 0.3 s in all, a failure at 0.07 s, then a full backoff. */
  method LateRetry() returns (calls: seq<Call>)
    ensures |calls| >= 2 && calls[0].slice > 0.0 && calls[1].slot.attempt == 1 && calls[1].slice < 0.0
  {
    var budget := new TB.RetryBudget(TB.LAB_APP);
    var breaker := new Breaker(20, 5.0);
    var j := Job(0.0, 0.3, 0.2, Env(_ => 0.07, _ => false, (_, x) => x, _ => []));
    var slot, turn;
    calls, slot, turn := FullHop(j, [], Slot(0, 0, 0, 0.0), budget, breaker);
    var now := slot.at;
    assert LinkAt(j, calls, 0) && CallOk(j, calls[0], now);
    if |calls| == 1 {
      FreshBudgetLasts(budget.history[1..]);
      assert false;
    }
    assert LinkAt(j, calls, 1) && CallOk(j, calls[1], now);
  }

  /** A bucket that starts with 20 tokens holds at least that less one for every retry granted. */
  lemma {:induction false} FreshBudgetLasts(h: seq<TB.Call>)
    ensures TB.Level(TB.LAB_APP, h) >= 20.0 - TB.Grants(h) as real
  {
    if h != [] {
      FreshBudgetLasts(h[1..]);
    }
  }
}
