/**
 The retry budget: a token bucket that each request tops up by `ratio`, up to `cap`, and
 each retry draws one token from. Two copies of it start full, one starts empty.
 Tokens are real numbers here.

 The specification is about windows: a window is a stretch of the history of calls that
 ends now, and it has room for a retry while the retries granted in it stay within what
 it may hold, `cap` (or the initial level, for the whole history) plus `ratio` per request.
 */
module TokenBucket {

  datatype Rule = Rule(ratio: real, cap: real, initial: real)

  /** Calls and their results: a request, a retry allowed, a retry refused. Histories are newest first. */
  datatype Call = Requested | Granted | Refused

  const LAB_APP: Rule := Rule(0.1, 20.0, 20.0)
  const METASTABLE: Rule := Rule(0.1, 100.0, 100.0)
  const POOL_STORM: Rule := Rule(0.1, 100.0, 0.0)

  predicate Sane(r: Rule) {
    0.0 <= r.ratio && 0.0 <= r.initial <= r.cap
  }

  function Min(x: real, y: real): real { if x <= y then x else y }

  /** The token count after a history of calls. */
  function Level(r: Rule, h: seq<Call>): real {
    if h == [] then r.initial
    else
      var before := Level(r, h[1..]);
      match h[0]
      case Requested => Min(r.cap, before + r.ratio)
      case Granted => before - 1.0
      case Refused => before
  }

  /** Every call was answered by the level it met. */
  predicate Lawful(r: Rule, h: seq<Call>) {
    h == [] ||
    (Lawful(r, h[1..]) &&
     (h[0] == Granted ==> Level(r, h[1..]) >= 1.0) && (h[0] == Refused ==> Level(r, h[1..]) < 1.0))
  }

  /** What is left of the allowance of the window that holds the last n calls. */
  function Room(r: Rule, h: seq<Call>, n: nat): real
    requires n <= |h|
  {
    if n == 0 then (if h == [] then r.initial else r.cap)
    else
      Room(r, h[1..], n - 1) +
        match h[0]
        case Requested => r.ratio
        case Granted => -1.0
        case Refused => 0.0
  }

  function Requests(h: seq<Call>): nat {
    if h == [] then 0 else Requests(h[1..]) + if h[0] == Requested then 1 else 0
  }

  function Grants(h: seq<Call>): nat {
    if h == [] then 0 else Grants(h[1..]) + if h[0] == Granted then 1 else 0
  }

  /** What the requests of a stretch of history have put in. */
  function Earned(r: Rule, h: seq<Call>): real {
    if h == [] then 0.0 else Earned(r, h[1..]) + if h[0] == Requested then r.ratio else 0.0
  }

  lemma {:induction false} EarnedPerRequest(r: Rule, h: seq<Call>)
    ensures Earned(r, h) == r.ratio * Requests(h) as real
  {
    if h != [] {
      var n := Requests(h[1..]) as real;
      EarnedPerRequest(r, h[1..]);
      assert r.ratio * (n + 1.0) == r.ratio * n + r.ratio;
    }
  }

  /** Room, spelled out: the allowance of the window w before which these older calls were made, minus its grants. */
  lemma {:induction false} RoomIsAllowanceLessGrants(r: Rule, w: seq<Call>, older: seq<Call>)
    ensures Room(r, w + older, |w|) ==
            (if older == [] then r.initial else r.cap) + Earned(r, w) - Grants(w) as real
  {
    if w == [] {
      assert [] + older == older;
    } else {
      assert (w + older)[1..] == w[1..] + older;
      RoomIsAllowanceLessGrants(r, w[1..], older);
    }
  }

  /** The token count is exactly the room of the tightest window that ends now. */
  lemma {:induction false} LevelIsTightestWindow(r: Rule, h: seq<Call>)
    requires Sane(r)
    ensures forall n :: 0 <= n <= |h| ==> Level(r, h) <= Room(r, h, n)
    ensures exists n :: 0 <= n <= |h| && Level(r, h) == Room(r, h, n)
    ensures Level(r, h) <= r.cap
  {
    if h == [] {
      assert Level(r, h) == Room(r, h, 0);
    } else {
      var older := h[1..];
      LevelIsTightestWindow(r, older);
      var m :| 0 <= m <= |older| && Level(r, older) == Room(r, older, m);
      forall n | 0 <= n <= |h| ensures Level(r, h) <= Room(r, h, n) {
        if n > 0 {
          assert Level(r, older) <= Room(r, older, n - 1);
        }
      }
      if h[0] == Requested && Level(r, older) + r.ratio > r.cap {
        assert Level(r, h) == Room(r, h, 0);
      } else {
        assert Level(r, h) == Room(r, h, m + 1);
      }
    }
  }

  /** Every window that ends now, the whole history included, has room for one more retry. */
  ghost predicate EveryWindowHasRoom(r: Rule, h: seq<Call>) {
    forall n :: 0 <= n <= |h| ==> Room(r, h, n) >= 1.0
  }

  /** The token test is the window test. */
  lemma TokenMeansRoom(r: Rule, h: seq<Call>)
    requires Sane(r)
    ensures Level(r, h) >= 1.0 <==> EveryWindowHasRoom(r, h)
  {
    LevelIsTightestWindow(r, h);
  }

  lemma {:induction false} LawfulLevelNotNegative(r: Rule, h: seq<Call>)
    requires Sane(r) && Lawful(r, h)
    ensures Level(r, h) >= 0.0
  {
    if h != [] {
      LawfulLevelNotNegative(r, h[1..]);
    }
  }

  lemma {:induction false} LawfulBefore(r: Rule, newer: seq<Call>, h: seq<Call>)
    requires Lawful(r, newer + h)
    ensures Lawful(r, h)
  {
    if newer == [] {
      assert [] + h == h;
    } else {
      assert (newer + h)[1..] == newer[1..] + h;
      LawfulBefore(r, newer[1..], h);
    }
  }

  lemma OneMoreCall(r: Rule, h: seq<Call>, c: Call)
    ensures Lawful(r, [c] + h) <==>
            Lawful(r, h) && (c == Granted ==> Level(r, h) >= 1.0) && (c == Refused ==> Level(r, h) < 1.0)
    ensures Level(r, [c] + h) ==
            match c
            case Requested => Min(r.cap, Level(r, h) + r.ratio)
            case Granted => Level(r, h) - 1.0
            case Refused => Level(r, h)
    ensures Requests([c] + h) == Requests(h) + if c == Requested then 1 else 0
    ensures Grants([c] + h) == Grants(h) + if c == Granted then 1 else 0
  {
    assert ([c] + h)[1..] == h;
  }

  /** A window that ends now. */
  lemma GrantsUntilNow(r: Rule, w: seq<Call>, older: seq<Call>)
    requires Sane(r) && Lawful(r, w + older)
    ensures Grants(w) as real <= (if older == [] then r.initial else r.cap) + Earned(r, w)
  {
    assert 0.0 <= Room(r, w + older, |w|) by {
      LawfulLevelNotNegative(r, w + older);
      LevelIsTightestWindow(r, w + older);
    }
    RoomIsAllowanceLessGrants(r, w, older);
  }

  /**
   In every window w of every history, between any newer and any older calls, grants stay within the cap plus ratio per
   request; in one that reaches back to the very start, within the initial level plus ratio per request.
   */
  lemma WindowBound(r: Rule, newer: seq<Call>, w: seq<Call>, older: seq<Call>)
    requires Sane(r) && Lawful(r, newer + (w + older))
    ensures Grants(w) as real <= (if older == [] then r.initial else r.cap) + r.ratio * Requests(w) as real
  {
    LawfulBefore(r, newer, w + older);
    GrantsUntilNow(r, w, older);
    EarnedPerRequest(r, w);
  }

  /** The window that is the whole history. */
  lemma GrantsFromTheStart(r: Rule, h: seq<Call>)
    requires Sane(r) && Lawful(r, h)
    ensures Grants(h) as real <= r.initial + r.ratio * Requests(h) as real
  {
    assert [] + (h + []) == h;
    WindowBound(r, [], h, []);
  }

  /** The bucket object; `history` records its calls for the specification. */
  class RetryBudget {
    const rule: Rule
    var tokens: real
    ghost var history: seq<Call>

    ghost predicate Valid()
      reads this
    {
      Sane(rule) && Lawful(rule, history) && tokens == Level(rule, history)
    }

    constructor (rule: Rule)
      requires Sane(rule)
      ensures Valid() && this.rule == rule && history == []
    {
      this.rule := rule;
      tokens := rule.initial;
      history := [];
    }

    method OnRequest()
      requires Valid()
      modifies this
      ensures Valid() && history == [Requested] + old(history)
      ensures old(tokens) <= tokens <= rule.cap || tokens == rule.cap
    {
      OneMoreCall(rule, history, Requested);
      tokens := Min(rule.cap, tokens + rule.ratio);
      history := [Requested] + history;
    }

    /** Grants a retry exactly when every window ending now has room for one. */
    method TrySpend() returns (ok: bool)
      requires Valid()
      modifies this
      ensures Valid() && history == [if ok then Granted else Refused] + old(history)
      ensures ok <==> EveryWindowHasRoom(rule, old(history))
      ensures tokens == if ok then old(tokens) - 1.0 else old(tokens)
    {
      TokenMeansRoom(rule, history);
      ok := tokens >= 1.0;
      ghost var call := if ok then Granted else Refused;
      OneMoreCall(rule, history, call);
      if ok {
        tokens := tokens - 1.0;
      }
      history := [call] + history;
    }
  }
}
