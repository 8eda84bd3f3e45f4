/**
 Many clients retrying against one dependency, interleaved at every await. Each client
 follows its program's attempt loop; the dependency's answers and the breaker's verdicts are
 arbitrary. What is counted is `attempts`, the calls the dependency receives.
 */
module RetryStorm {
  import opened Common
  import opened TokenBucket

  /** `budgeted` turns the retry budget on; `breaker` allows rejection before any attempt. */
  datatype Config = Config(maxAttempts: nat, budgeted: bool, breaker: bool, rule: Rule)

  const NAIVE: Config := Config(3, false, false, METASTABLE)
  const DISCIPLINED: Config := Config(3, true, true, METASTABLE)
  const POOL_CLIENT: Config := Config(4, true, false, POOL_STORM)

  /** `Trying(a)`: at the top of the loop for attempt a. `Backoff(a)`: has its token and sleeps. */
  datatype Client =
    | Created
    | Trying(attempt: nat)
    | Backoff(attempt: nat)
    | InFlight(attempt: nat)
    | Good(sent: nat)
    | Bad(sent: nat)

  datatype State = State(clients: seq<Client>, attempts: nat, history: seq<Call>)

  datatype Event =
    | Offer | Begin(c: nat) | Reject(c: nat)
    | Spend(c: nat) | Deny(c: nat)
    | Send(c: nat) | Succeed(c: nat) | Lose(c: nat)

  predicate Enabled(g: Config, s: State, e: Event) {
    e.Offer? ||
    (e.c < |s.clients| &&
     var me := s.clients[e.c];
     match e
     case Offer => true
     case Begin(c) => me == Created && g.maxAttempts > 0
     case Reject(c) => g.breaker && me.Trying?
     case Spend(c) => g.budgeted && me.Trying? && me.attempt > 0 && Level(g.rule, s.history) >= 1.0
     case Deny(c) => g.budgeted && me.Trying? && me.attempt > 0 && Level(g.rule, s.history) < 1.0
     case Send(c) => me.Backoff? || (me.Trying? && (me.attempt == 0 || !g.budgeted))
     case Succeed(c) => me.InFlight?
     case Lose(c) => me.InFlight?)
  }

  function Apply(g: Config, s: State, e: Event): State
    requires Enabled(g, s, e)
  {
    if e.Offer? then s.(clients := s.clients + [Created])
    else
      var me := s.clients[e.c];
      match e
      case Begin(c) =>
        s.(clients := s.clients[c := Trying(0)], history := if g.budgeted then [Requested] + s.history else s.history)
      case Reject(c) => s.(clients := s.clients[c := Bad(me.attempt)])
      case Spend(c) => s.(clients := s.clients[c := Backoff(me.attempt)], history := [Granted] + s.history)
      case Deny(c) => s.(clients := s.clients[c := Bad(me.attempt)], history := [Refused] + s.history)
      case Send(c) => s.(clients := s.clients[c := InFlight(me.attempt)], attempts := s.attempts + 1)
      case Succeed(c) => s.(clients := s.clients[c := Good(me.attempt + 1)])
      case Lose(c) =>
        var next := if me.attempt + 1 < g.maxAttempts then Trying(me.attempt + 1) else Bad(me.attempt + 1);
        s.(clients := s.clients[c := next])
  }

  ghost predicate Run(g: Config, s: State, es: seq<Event>, s': State)
    decreases |es|
  {
    if es == [] then s == s'
    else Enabled(g, s, es[0]) && Run(g, Apply(g, s, es[0]), es[1..], s')
  }

  const EMPTY: State := State([], 0, [])

  ghost predicate Reachable(g: Config, s: State) {
    exists es :: Run(g, EMPTY, es, s)
  }

  // ---------------------------------------------------------------- the invariant

  function Sent(c: Client): nat {
    match c
    case Created => 0
    case Trying(a) => a
    case Backoff(a) => a
    case InFlight(a) => a + 1
    case Good(n) => n
    case Bad(n) => n
  }

  /** An attempt already paid for, by the request or by a token, and not yet sent. */
  function Credit(c: Client): nat {
    match c
    case Trying(a) => if a == 0 then 1 else 0
    case Backoff(_) => 1
    case _ => 0
  }

  function Begun(c: Client): nat { if c == Created then 0 else 1 }

  function Sents(cs: seq<Client>): seq<int> {
    seq(|cs|, i requires 0 <= i < |cs| => Sent(cs[i]))
  }

  function Credits(cs: seq<Client>): seq<int> {
    seq(|cs|, i requires 0 <= i < |cs| => Credit(cs[i]))
  }

  function Begins(cs: seq<Client>): seq<int> {
    seq(|cs|, i requires 0 <= i < |cs| => Begun(cs[i]))
  }

  lemma SumsUpdate(cs: seq<Client>, i: nat, c: Client)
    requires i < |cs|
    ensures Sum(Sents(cs[i := c])) == Sum(Sents(cs)) - Sent(cs[i]) + Sent(c)
    ensures Sum(Credits(cs[i := c])) == Sum(Credits(cs)) - Credit(cs[i]) + Credit(c)
    ensures Sum(Begins(cs[i := c])) == Sum(Begins(cs)) - Begun(cs[i]) + Begun(c)
  {
    assert Sents(cs[i := c]) == Sents(cs)[i := Sent(c)];
    assert Credits(cs[i := c]) == Credits(cs)[i := Credit(c)];
    assert Begins(cs[i := c]) == Begins(cs)[i := Begun(c)];
    SumUpdate(Sents(cs), i, Sent(c));
    SumUpdate(Credits(cs), i, Credit(c));
    SumUpdate(Begins(cs), i, Begun(c));
  }

  lemma SumsOffer(cs: seq<Client>)
    ensures Sum(Sents(cs + [Created])) == Sum(Sents(cs))
    ensures Sum(Credits(cs + [Created])) == Sum(Credits(cs))
    ensures Sum(Begins(cs + [Created])) == Sum(Begins(cs))
  {
    assert Sents(cs + [Created]) == Sents(cs) + [0];
    assert Credits(cs + [Created]) == Credits(cs) + [0];
    assert Begins(cs + [Created]) == Begins(cs) + [0];
    SumAppend(Sents(cs), [0]);
    SumAppend(Credits(cs), [0]);
    SumAppend(Begins(cs), [0]);
  }

  /** No client goes on past its last attempt. */
  ghost predicate LoopsOk(g: Config, cs: seq<Client>) {
    forall c :: 0 <= c < |cs| ==>
      Sent(cs[c]) <= g.maxAttempts && (cs[c].Trying? || cs[c].Backoff? ==> cs[c].attempt < g.maxAttempts)
  }

  ghost predicate Inv(g: Config, s: State) {
    && s.attempts == Sum(Sents(s.clients))
    && LoopsOk(g, s.clients)
    && Lawful(g.rule, s.history)
    && (g.budgeted ==>
         && Requests(s.history) == Sum(Begins(s.clients))
         && s.attempts + Sum(Credits(s.clients)) <= Requests(s.history) + Grants(s.history))
  }

  lemma SumsStep(g: Config, s: State, e: Event)
    requires Enabled(g, s, e)
    ensures var cs, more := s.clients, Apply(g, s, e).clients;
            if e.Offer? then
              && Sum(Sents(more)) == Sum(Sents(cs)) && Sum(Credits(more)) == Sum(Credits(cs))
              && Sum(Begins(more)) == Sum(Begins(cs))
            else
              && Sum(Sents(more)) == Sum(Sents(cs)) - Sent(cs[e.c]) + Sent(more[e.c])
              && Sum(Credits(more)) == Sum(Credits(cs)) - Credit(cs[e.c]) + Credit(more[e.c])
              && Sum(Begins(more)) == Sum(Begins(cs)) - Begun(cs[e.c]) + Begun(more[e.c])
  {
    if e.Offer? {
      SumsOffer(s.clients);
    } else {
      SumsUpdate(s.clients, e.c, Apply(g, s, e).clients[e.c]);
    }
  }

  lemma HistoryStep(g: Config, s: State, e: Event)
    requires Enabled(g, s, e) && Lawful(g.rule, s.history)
    ensures var h := Apply(g, s, e).history;
            && Lawful(g.rule, h)
            && Requests(h) == Requests(s.history) + (if e.Begin? && g.budgeted then 1 else 0)
            && Grants(h) == Grants(s.history) + (if e.Spend? then 1 else 0)
  {
    match e
    case Begin(_) => OneMoreCall(g.rule, s.history, Requested);
    case Spend(_) => OneMoreCall(g.rule, s.history, Granted);
    case Deny(_) => OneMoreCall(g.rule, s.history, Refused);
    case _ =>
  }

  lemma LoopsStep(g: Config, s: State, e: Event)
    requires LoopsOk(g, s.clients) && Enabled(g, s, e)
    ensures LoopsOk(g, Apply(g, s, e).clients)
  {
  }

  lemma StepInv(g: Config, s: State, e: Event)
    requires Inv(g, s) && Enabled(g, s, e)
    ensures Inv(g, Apply(g, s, e))
  {
    SumsStep(g, s, e);
    HistoryStep(g, s, e);
    LoopsStep(g, s, e);
  }

  lemma {:induction false} RunInv(g: Config, s: State, es: seq<Event>, s': State)
    requires Inv(g, s) && Run(g, s, es, s')
    ensures Inv(g, s')
    decreases |es|
  {
    if es != [] {
      StepInv(g, s, es[0]);
      RunInv(g, Apply(g, s, es[0]), es[1..], s');
    }
  }

  lemma ReachableInv(g: Config, s: State)
    requires Reachable(g, s)
    ensures Inv(g, s)
  {
    var es :| Run(g, EMPTY, es, s);
    RunInv(g, EMPTY, es, s);
  }

  // ---------------------------------------------------------------- what is counted

  function Goods(cs: seq<Client>): seq<int> {
    seq(|cs|, i requires 0 <= i < |cs| => if cs[i].Good? then 1 else 0)
  }

  function Offers(es: seq<Event>): nat { if es == [] then 0 else Offers(es[1..]) + if es[0].Offer? then 1 else 0 }

  function Sends(es: seq<Event>): nat { if es == [] then 0 else Sends(es[1..]) + if es[0].Send? then 1 else 0 }

  function Answers(es: seq<Event>): nat { if es == [] then 0 else Answers(es[1..]) + if es[0].Succeed? then 1 else 0 }

  lemma GoodsStep(g: Config, s: State, e: Event)
    requires Enabled(g, s, e)
    ensures Sum(Goods(Apply(g, s, e).clients)) == Sum(Goods(s.clients)) + if e.Succeed? then 1 else 0
  {
    var cs := Apply(g, s, e).clients;
    if e.Offer? {
      assert Goods(cs) == Goods(s.clients) + [0];
      SumAppend(Goods(s.clients), [0]);
    } else {
      var one := if cs[e.c].Good? then 1 else 0;
      assert Goods(cs) == Goods(s.clients)[e.c := one];
      SumUpdate(Goods(s.clients), e.c, one);
    }
  }

  lemma {:induction false} RunCounts(g: Config, s: State, es: seq<Event>, s': State)
    requires Run(g, s, es, s')
    ensures |s'.clients| == |s.clients| + Offers(es) && s'.attempts == s.attempts + Sends(es)
    ensures Sum(Goods(s'.clients)) == Sum(Goods(s.clients)) + Answers(es)
    decreases |es|
  {
    if es != [] {
      GoodsStep(g, s, es[0]);
      RunCounts(g, Apply(g, s, es[0]), es[1..], s');
    }
  }

  /** In every run the clients are those offered, the attempts those sent, and the good ones those answered. */
  lemma CountersCount(g: Config, es: seq<Event>, s: State)
    requires Run(g, EMPTY, es, s)
    ensures |s.clients| == Offers(es) && s.attempts == Sends(es) && Sum(Goods(s.clients)) == Answers(es)
  {
    RunCounts(g, EMPTY, es, s);
  }

  // ---------------------------------------------------------------- the bounds

  /** Any attempt loop multiplies load by at most its attempt cap: three for the naive client. */
  lemma AttemptCap(g: Config, s: State)
    requires Reachable(g, s)
    ensures s.attempts <= g.maxAttempts * |s.clients|
  {
    ReachableInv(g, s);
    SumBounds(Sents(s.clients), 0, g.maxAttempts);
  }

  /**
   With the budget, at every moment of every interleaving: retries granted stay within the initial
   tokens plus ratio per request, and attempts exceed requests by no more than that.
   */
  lemma BudgetBoundsLoad(g: Config, s: State)
    requires g.budgeted && Sane(g.rule) && Reachable(g, s)
    ensures Grants(s.history) as real <= g.rule.initial + g.rule.ratio * Requests(s.history) as real
    ensures s.attempts <= Requests(s.history) + Grants(s.history)
    ensures Requests(s.history) <= |s.clients|
  {
    ReachableInv(g, s);
    GrantsFromTheStart(g.rule, s.history);
    CountsWithin(g, s);
  }

  lemma CountsWithin(g: Config, s: State)
    requires g.budgeted && Inv(g, s)
    ensures s.attempts <= Requests(s.history) + Grants(s.history) && Requests(s.history) <= |s.clients|
  {
    SumBounds(Begins(s.clients), 0, 1);
    SumNonNegative(Credits(s.clients));
  }

  /** The disciplined client's amplification: at most 1.1 times the offered load, plus the 100 initial tokens. */
  lemma DisciplinedAmplification(s: State)
    requires Reachable(DISCIPLINED, s)
    ensures s.attempts as real <= 1.1 * |s.clients| as real + 100.0
  {
    BudgetBoundsLoad(DISCIPLINED, s);
  }

  /** The bucket that starts empty: retries are at most a tenth of the requests made so far, at every prefix. */
  lemma PoolClientAmplification(s: State)
    requires Reachable(POOL_CLIENT, s)
    ensures Grants(s.history) as real <= 0.1 * Requests(s.history) as real
    ensures s.attempts as real <= 1.1 * Requests(s.history) as real
  {
    BudgetBoundsLoad(POOL_CLIENT, s);
  }

  lemma {:induction false} RunAppend(g: Config, s: State, es: seq<Event>, mid: State, fs: seq<Event>, s': State)
    requires Run(g, s, es, mid) && Run(g, mid, fs, s')
    ensures Run(g, s, es + fs, s')
    decreases |es|
  {
    if es == [] {
      assert es + fs == fs;
    } else {
      assert (es + fs)[1..] == es[1..] + fs;
      RunAppend(g, Apply(g, s, es[0]), es[1..], mid, fs, s');
    }
  }

  /** One more naive client whose three attempts all fail. */
  lemma OneMoreFailure(s: State) returns (es: seq<Event>, s': State)
    ensures Run(NAIVE, s, es, s') && s'.attempts == s.attempts + 3 && |s'.clients| == |s.clients| + 1
  {
    var c := |s.clients|;
    var s1 := Apply(NAIVE, s, Offer);
    var s2 := Apply(NAIVE, s1, Begin(c));
    var s3 := Apply(NAIVE, Apply(NAIVE, s2, Send(c)), Lose(c));
    var s4 := Apply(NAIVE, Apply(NAIVE, s3, Send(c)), Lose(c));
    s' := Apply(NAIVE, Apply(NAIVE, s4, Send(c)), Lose(c));
    var pair := [Send(c), Lose(c)];
    assert pair[1..] == [Lose(c)] && pair[1..][1..] == [];
    RunAppend(NAIVE, s3, pair, s4, pair, s');
    RunAppend(NAIVE, s2, pair, s3, pair + pair, s');
    assert [Offer, Begin(c)][1..] == [Begin(c)] && [Begin(c)][1..] == [];
    RunAppend(NAIVE, s, [Offer, Begin(c)], s2, pair + (pair + pair), s');
    es := [Offer, Begin(c)] + (pair + (pair + pair));
  }

  /** The naive bound is attained: for every number of clients some run triples the load. */
  lemma {:induction false} NaiveTriples(n: nat) returns (es: seq<Event>, s: State)
    ensures Run(NAIVE, EMPTY, es, s) && |s.clients| == n && s.attempts == 3 * n
  {
    if n == 0 {
      es, s := [], EMPTY;
    } else {
      var s1;
      es, s1 := NaiveTriples(n - 1);
      var fs;
      fs, s := OneMoreFailure(s1);
      RunAppend(NAIVE, EMPTY, es, s1, fs, s);
      es := es + fs;
    }
  }

  // ---------------------------------------------------------------- the loops

  /** The later history goes on from the earlier one. */
  ghost predicate Follows(h: seq<Call>, later: seq<Call>)
    decreases |later|
  {
    h == later || (later != [] && Follows(h, later[1..]))
  }

  lemma {:induction false} FollowsOn(h: seq<Call>, mid: seq<Call>, later: seq<Call>)
    requires Follows(h, mid) && Follows(mid, later)
    ensures Follows(h, later)
    decreases |later|
  {
    if mid != later {
      FollowsOn(h, mid, later[1..]);
    }
  }

  /** One call on the shared budget, seen as growth of its history. */
  method CallBudget(budget: RetryBudget, request: bool) returns (ok: bool)
    requires budget.Valid()
    modifies budget
    ensures budget.Valid() && Follows(old(budget.history), budget.history)
    ensures request ==> budget.history == [Requested] + old(budget.history)
    ensures !request ==> budget.history == [if ok then Granted else Refused] + old(budget.history)
    ensures !request ==> (ok <==> EveryWindowHasRoom(budget.rule, old(budget.history)))
    ensures Grants(budget.history) == Grants(old(budget.history)) + if ok && !request then 1 else 0
  {
    ghost var h := budget.history;
    ok := true;
    if request {
      budget.OnRequest();
      OneMoreCall(budget.rule, h, Requested);
    } else {
      ok := budget.TrySpend();
      OneMoreCall(budget.rule, h, if ok then Granted else Refused);
    }
  }

  /** What other clients do to the shared budget while this one awaits: true is a request, false a retry. */
  method OthersRun(budget: RetryBudget, calls: seq<bool>)
    requires budget.Valid()
    modifies budget
    ensures budget.Valid() && Follows(old(budget.history), budget.history)
    ensures Grants(budget.history) >= Grants(old(budget.history))
    ensures calls == [] ==> budget.history == old(budget.history)
  {
    ghost var h := budget.history;
    for i := 0 to |calls|
      invariant budget.Valid() && Follows(h, budget.history) && (i == 0 ==> budget.history == h)
      invariant Grants(budget.history) >= Grants(h)
    {
      ghost var mid := budget.history;
      var _ := CallBudget(budget, calls[i]);
      FollowsOn(h, mid, budget.history);
    }
  }

  /** A retry's token from the shared budget, and what others do with the budget while it backs off. */
  method PayForRetry(budget: RetryBudget, others: seq<bool>) returns (ok: bool)
    requires budget.Valid()
    modifies budget
    ensures budget.Valid() && Follows(old(budget.history), budget.history)
    ensures ok <==> EveryWindowHasRoom(budget.rule, old(budget.history))
    ensures !ok ==> budget.history == [Refused] + old(budget.history)
    ensures ok && others == [] ==> budget.history == [Granted] + old(budget.history)
    ensures Grants(budget.history) >= Grants(old(budget.history)) + if ok then 1 else 0
    ensures others == [] ==> Grants(budget.history) == Grants(old(budget.history)) + if ok then 1 else 0
  {
    ghost var h := budget.history;
    ok := CallBudget(budget, false);
    if ok {
      ghost var mid := budget.history;
      OthersRun(budget, others);
      FollowsOn(h, mid, budget.history);
    }
  }

  /** No other client uses the budget meanwhile. */
  ghost predicate Quiet(others: nat -> seq<bool>) {
    forall i :: others(i) == []
  }

  /** An attempt that the breaker allows is sent, if it is the first or its token is granted; meanwhile others run. */
  method TryOnce(budget: RetryBudget, attempt: nat, others: nat -> seq<bool>) returns (sent: bool)
    requires budget.Valid()
    modifies budget
    ensures budget.Valid() && Follows(old(budget.history), budget.history)
    ensures sent <==> attempt == 0 || EveryWindowHasRoom(budget.rule, old(budget.history))
    ensures !sent ==> budget.history == [Refused] + old(budget.history)
    ensures Grants(budget.history) >= Grants(old(budget.history)) + if sent && attempt > 0 then 1 else 0
    ensures Quiet(others) ==>
              Grants(budget.history) == Grants(old(budget.history)) + if sent && attempt > 0 then 1 else 0
  {
    ghost var h := budget.history;
    if attempt > 0 {
      var ok := PayForRetry(budget, others(2 * attempt));
      if !ok {
        return false;
      }
    }
    ghost var paid := budget.history;
    OthersRun(budget, others(2 * attempt + 1));
    FollowsOn(h, paid, budget.history);
    return true;
  }

  /**
   `disciplined_client`: it sends as long as the breaker allows it, attempts are left, none was answered and each retry
   is paid for with a token of the shared budget, whatever the others do at its awaits; and it records every verdict.
   */
  method DisciplinedClient(budget: RetryBudget, allows: nat -> bool, answers: nat -> bool, others: nat -> seq<bool>)
    returns (attempts: nat, good: bool, spent: nat, recorded: seq<bool>)
    requires budget.Valid()
    modifies budget
    ensures budget.Valid() && Follows([Requested] + old(budget.history), budget.history)
    ensures attempts <= 3 && spent == if attempts == 0 then 0 else attempts - 1
    ensures Grants(budget.history) >= Grants(old(budget.history)) + spent
    ensures Quiet(others) ==> Grants(budget.history) == Grants(old(budget.history)) + spent
    // it stops at the first answer, and otherwise when refused by the breaker or the budget, or after three attempts
    ensures forall i :: 0 <= i < attempts ==> allows(i)
    ensures forall i :: 0 <= i < attempts - 1 ==> !answers(i)
    ensures good <==> attempts > 0 && answers(attempts - 1)
    ensures !good && attempts < 3 ==> !allows(attempts) || (attempts > 0 && budget.history[0] == Refused)
    ensures |recorded| == attempts && forall i :: 0 <= i < attempts ==> recorded[i] == answers(i)
  {
    attempts, good, spent, recorded := 0, false, 0, [];
    var _ := CallBudget(budget, true);
    ghost var h := budget.history;
    for attempt := 0 to 3
      invariant budget.Valid() && Follows(h, budget.history)
      invariant attempts == attempt && spent == if attempt == 0 then 0 else attempt - 1
      invariant Grants(budget.history) >= Grants(h) + spent
      invariant Quiet(others) ==> Grants(budget.history) == Grants(h) + spent
      invariant !good && forall i :: 0 <= i < attempt ==> allows(i) && !answers(i)
      invariant |recorded| == attempt && forall i :: 0 <= i < attempt ==> recorded[i] == answers(i)
    {
      if !allows(attempt) {
        return;
      }
      ghost var before := budget.history;
      var sent := TryOnce(budget, attempt, others);
      FollowsOn(h, before, budget.history);
      if !sent {
        return;
      }
      attempts, spent := attempts + 1, attempt;
      recorded := recorded + [answers(attempt)];
      if answers(attempt) {
        good := true;
        return;
      }
    }
  }
}
