/**
 A name is moved from one server to another under pooled connections: a resolver that honours a time to live,
 and clients that keep one connection each under a lifetime policy and resolve only when they connect.

 Time is read by the source at several points of one request; they are given here in order, as is
 what the network does (connect or not, answer or not). Many clients share one resolver.
 */
module PoolOutlivesDns {
  import opened Common

  // ---------------------------------------------------------------- the resolver

  datatype ResolverState = ResolverState(
    records: map<string, int>,
    cache: map<string, (int, real)>,
    queries: nat,
    cacheHits: nat)

  /**
   One lookup: the cache is consulted at `asked`, and a fresh answer is stored at `stored`. No record is a KeyError.
   */
  function Resolved(ttl: real, r: ResolverState, name: string, asked: real, stored: real)
    : (ResolverState, Option<int>)
  {
    if name in r.cache && asked < r.cache[name].1 then
      (r.(cacheHits := r.cacheHits + 1), Some(r.cache[name].0))
    else if name !in r.records then
      (r.(queries := r.queries + 1), None)
    else
      (r.(queries := r.queries + 1, cache := r.cache[name := (r.records[name], stored + ttl)]), Some(r.records[name]))
  }

  class Resolver {
    const ttl: real
    var records: map<string, int>
    var cache: map<string, (int, real)>
    var queries: nat
    var cacheHits: nat

    ghost function View(): ResolverState
      reads this
    {
      ResolverState(records, cache, queries, cacheHits)
    }

    constructor (ttl: real)
      ensures this.ttl == ttl && View() == ResolverState(map[], map[], 0, 0)
    {
      this.ttl := ttl;
      records, cache, queries, cacheHits := map[], map[], 0, 0;
    }

    method SetRecord(name: string, port: int)
      modifies this
      ensures View() == old(View()).(records := old(records)[name := port])
    {
      records := records[name := port];
    }

    method Resolve(name: string, asked: real, stored: real) returns (port: Option<int>)
      modifies this
      ensures (View(), port) == Resolved(ttl, old(View()), name, asked, stored)
    {
      if name in cache && asked < cache[name].1 {
        cacheHits := cacheHits + 1;
        return Some(cache[name].0);
      }
      queries := queries + 1;
      if name !in records {
        return None;
      }
      port := Some(records[name]);
      cache := cache[name := (records[name], stored + ttl)];
    }
  }

  // ---------------------------------------------------------------- one client

  datatype Policy = Policy(host: string, idleExpiry: Option<real>, maxLifetime: Option<real>)

  /** When it was, whether it was a 200, and who served it when anybody did. */
  datatype Result = Result(at: real, ok: bool, servedBy: Option<int>)

  datatype ClientState = ClientState(
    conn: Option<int>,
    openedAt: real,
    lastUsed: real,
    handshakes: nat,
    results: seq<Result>)

  datatype Reply = Broken | Status(ok: bool)

  /** A request at `now`: the times the resolver reads if it is asked, and what the network does. */
  datatype Req = Req(now: real, asked: real, stored: real, connects: bool, reply: Reply)

  function ShouldRetire(p: Policy, c: ClientState, now: real): bool {
    c.conn.Some? &&
    ((p.maxLifetime.Some? && now - c.openedAt > p.maxLifetime.value) ||
     (p.idleExpiry.Some? && now - c.lastUsed > p.idleExpiry.value))
  }

  /** Whether this request will ask the resolver. */
  function MustConnect(p: Policy, c: ClientState, now: real): bool {
    c.conn.None? || ShouldRetire(p, c, now)
  }

  /** Connecting to the resolved port; without one the KeyError leaves the request unrecorded. */
  function Connected(c: ClientState, q: Req, port: Option<int>): ClientState {
    if port.None? then c.(conn := None)
    else if q.connects then c.(conn := port, openedAt := q.now, handshakes := c.handshakes + 1)
    else c.(conn := None, results := c.results + [Result(q.now, false, None)])
  }

  function Exchanged(c: ClientState, q: Req): ClientState
    requires c.conn.Some?
  {
    match q.reply
    case Broken => c.(conn := None, results := c.results + [Result(q.now, false, None)])
    case Status(ok) => c.(lastUsed := q.now, results := c.results + [Result(q.now, ok, c.conn)])
  }

  /** The client's side of a request, given the port the resolver answers if it is asked. */
  function Requested(p: Policy, c: ClientState, q: Req, port: Option<int>): ClientState {
    if MustConnect(p, c, q.now) then
      var c1 := Connected(c, q, port);
      if c1.conn.None? then c1 else Exchanged(c1, q)
    else Exchanged(c, q)
  }

  class Client {
    const policy: Policy
    const resolver: Resolver
    var conn: Option<int>
    var openedAt: real
    var lastUsed: real
    var handshakes: nat
    var results: seq<Result>

    ghost function View(): ClientState
      reads this
    {
      ClientState(conn, openedAt, lastUsed, handshakes, results)
    }

    constructor (policy: Policy, resolver: Resolver)
      ensures this.policy == policy && this.resolver == resolver && View() == Unconnected()
    {
      this.policy, this.resolver := policy, resolver;
      conn, openedAt, lastUsed, handshakes, results := None, 0.0, 0.0, 0, [];
    }

    method ShouldRetireNow(now: real) returns (retire: bool)
      ensures retire == ShouldRetire(policy, View(), now)
    {
      if conn.None? {
        return false;
      }
      if policy.maxLifetime.Some? && now - openedAt > policy.maxLifetime.value {
        return true;
      }
      if policy.idleExpiry.Some? && now - lastUsed > policy.idleExpiry.value {
        return true;
      }
      return false;
    }

    method Request(q: Req)
      modifies this, resolver
      ensures View() == Requested(policy, old(View()), q,
                                  Resolved(resolver.ttl, old(resolver.View()), policy.host, q.asked, q.stored).1)
      ensures resolver.View() == if MustConnect(policy, old(View()), q.now)
                then Resolved(resolver.ttl, old(resolver.View()), policy.host, q.asked, q.stored).0
                else old(resolver.View())
    {
      var retire := ShouldRetireNow(q.now);
      if retire {
        conn := None;
      }
      if conn.None? {
        var port := resolver.Resolve(policy.host, q.asked, q.stored);
        Connect(q, port);
        if conn.None? {
          return;
        }
      }
      Exchange(q);
    }

    /** Connecting to what the resolver answered; without an answer the KeyError leaves the request unrecorded. */
    method Connect(q: Req, port: Option<int>)
      requires conn.None?
      modifies this
      ensures View() == Connected(old(View()), q, port)
    {
      if port.None? {
        return;
      }
      if !q.connects {
        results := results + [Result(q.now, false, None)];
        return;
      }
      conn, openedAt, handshakes := port, q.now, handshakes + 1;
    }

    /** The request and its answer on the connection there is. */
    method Exchange(q: Req)
      requires conn.Some?
      modifies this
      ensures View() == Exchanged(old(View()), q)
    {
      match q.reply
      case Broken =>
        conn := None;
        results := results + [Result(q.now, false, None)];
      case Status(ok) =>
        lastUsed := q.now;
        results := results + [Result(q.now, ok, conn)];
    }
  }

  function Unconnected(): ClientState {
    ClientState(None, 0.0, 0.0, 0, [])
  }

  // ---------------------------------------------------------------- many clients, one resolver

  datatype Sys = Sys(resolver: ResolverState, clients: seq<ClientState>)

  datatype Event =
    | Point(name: string, port: int, at: real)
    | LookUp(name: string, asked: real, stored: real)
    | Ask(client: nat, q: Req)

  function Start(e: Event): real {
    match e
    case Point(_, _, at) => at
    case LookUp(_, asked, _) => asked
    case Ask(_, q) => q.now
  }

  function End(e: Event): real {
    match e
    case Point(_, _, at) => at
    case LookUp(_, _, stored) => stored
    case Ask(_, q) => q.stored
  }

  /** The clock does not go back within an event. */
  ghost predicate InTime(e: Event) {
    match e
    case Point(_, _, _) => true
    case LookUp(_, asked, stored) => asked <= stored
    case Ask(_, q) => q.now <= q.asked <= q.stored
  }

  function Step(ttl: real, policies: seq<Policy>, s: Sys, e: Event): Sys
    requires |s.clients| == |policies|
  {
    match e
    case Point(name, port, _) => s.(resolver := s.resolver.(records := s.resolver.records[name := port]))
    case LookUp(name, asked, stored) => s.(resolver := Resolved(ttl, s.resolver, name, asked, stored).0)
    case Ask(i, q) =>
      if i >= |s.clients| then s
      else
        var p, c := policies[i], s.clients[i];
        var looked := Resolved(ttl, s.resolver, p.host, q.asked, q.stored);
        Sys(if MustConnect(p, c, q.now) then looked.0 else s.resolver,
            s.clients[i := Requested(p, c, q, looked.1)])
  }

  /** The events happen one after the other, none before `from`, all over by `until`. */
  ghost predicate InOrder(es: seq<Event>, from: real, until: real) {
    if es == [] then from <= until
    else
      var e := es[|es| - 1];
      InTime(e) && End(e) <= until && InOrder(es[..|es| - 1], from, Start(e))
  }

  function Play(ttl: real, policies: seq<Policy>, s: Sys, es: seq<Event>): (t: Sys)
    requires |s.clients| == |policies|
    ensures |t.clients| == |policies|
  {
    if es == [] then s
    else Step(ttl, policies, Play(ttl, policies, s, es[..|es| - 1]), es[|es| - 1])
  }

  // ---------------------------------------------------------------- recovery after the name moves

  /** At time t: nothing is cached for longer than the time to live, and no open connection was opened later than t. */
  ghost predicate Timely(ttl: real, s: Sys, t: real) {
    && (forall name :: name in s.resolver.cache ==> s.resolver.cache[name].1 <= t + ttl)
    && (forall i :: 0 <= i < |s.clients| && s.clients[i].conn.Some? ==> s.clients[i].openedAt <= t)
  }

  /**
   Once a name points to a port: whatever is cached for the name is that port or expires by `bound`, and every
   connection of a client of that name goes to that port or was opened by `bound`.
   */
  ghost predicate Moving(policies: seq<Policy>, s: Sys, name: string, port: int, bound: real)
    requires |s.clients| == |policies|
  {
    && name in s.resolver.records && s.resolver.records[name] == port
    && (name in s.resolver.cache ==> s.resolver.cache[name].0 == port || s.resolver.cache[name].1 <= bound)
    && (forall i :: 0 <= i < |s.clients| && policies[i].host == name && s.clients[i].conn.Some? ==>
          s.clients[i].conn.value == port || s.clients[i].openedAt <= bound)
  }

  lemma {:induction false} RunTimely(ttl: real, policies: seq<Policy>, s: Sys, es: seq<Event>, from: real, until: real)
    requires |s.clients| == |policies| && Timely(ttl, s, from) && InOrder(es, from, until)
    ensures Timely(ttl, Play(ttl, policies, s, es), until)
  {
    if es == [] {
      assert from <= until;
    } else {
      var e := es[|es| - 1];
      RunTimely(ttl, policies, s, es[..|es| - 1], from, Start(e));
    }
  }

  ghost predicate NeverMoved(es: seq<Event>, name: string) {
    forall i :: 0 <= i < |es| && es[i].Point? ==> es[i].name != name
  }

  lemma {:induction false} RunMoving(ttl: real, policies: seq<Policy>, s: Sys, es: seq<Event>, from: real, until: real,
                                     name: string, port: int, bound: real)
    requires |s.clients| == |policies| && Moving(policies, s, name, port, bound)
    requires InOrder(es, from, until) && NeverMoved(es, name)
    ensures Moving(policies, Play(ttl, policies, s, es), name, port, bound)
  {
    if es != [] {
      var e := es[|es| - 1];
      RunMoving(ttl, policies, s, es[..|es| - 1], from, Start(e), name, port, bound);
    }
  }

  function Fresh(n: nat): Sys {
    Sys(ResolverState(map[], map[], 0, 0), seq(n, _ => Unconnected()))
  }

  /**
   After the name is repointed at time `at`, a request later than `at` + time to live + maximum lifetime is either not
   answered or answered by the new port; and it is answered when the network lets it be.
   */
  lemma {:induction false} LifetimeBoundsTheOutage(ttl: real, policies: seq<Policy>, before: seq<Event>,
                                                   at: real, port: int,
                                                   since: seq<Event>, i: nat, q: Req)
    requires ttl >= 0.0 && i < |policies| && policies[i].maxLifetime.Some? && policies[i].maxLifetime.value >= 0.0
    requires InOrder(before, 0.0, at) && InOrder(since, at, q.now) && q.now <= q.asked <= q.stored
    requires NeverMoved(since, policies[i].host)
    requires q.now > at + ttl + policies[i].maxLifetime.value
    ensures var s1 := Play(ttl, policies, Fresh(|policies|), before);
            var s2 := Play(ttl, policies, Step(ttl, policies, s1, Point(policies[i].host, port, at)), since);
            var c, c' := s2.clients[i], Step(ttl, policies, s2, Ask(i, q)).clients[i];
            var answered := q.reply.Status? && (q.connects || !MustConnect(policies[i], c, q.now));
            c'.results == c.results +
              [if answered then Result(q.now, q.reply.ok, Some(port)) else Result(q.now, false, None)]
  {
    var name, bound := policies[i].host, at + ttl;
    var s1 := Play(ttl, policies, Fresh(|policies|), before);
    RunTimely(ttl, policies, Fresh(|policies|), before, 0.0, at);
    var moved := Step(ttl, policies, s1, Point(name, port, at));
    assert Moving(policies, moved, name, port, bound);
    RunMoving(ttl, policies, moved, since, at, q.now, name, port, bound);
    var s2 := Play(ttl, policies, moved, since);
  }

  // ---------------------------------------------------------------- what the resolver's cache does

  /** The event looks the name up: by itself, or because a client of that name has to connect. */
  predicate LooksUp(policies: seq<Policy>, s: Sys, e: Event, name: string)
    requires |s.clients| == |policies|
  {
    match e
    case Point(_, _, _) => false
    case LookUp(n, _, _) => n == name
    case Ask(i, q) => i < |policies| && policies[i].host == name && MustConnect(policies[i], s.clients[i], q.now)
  }

  function AskedAt(e: Event): real {
    match e
    case Point(_, _, at) => at
    case LookUp(_, asked, _) => asked
    case Ask(_, q) => q.asked
  }

  /** Nothing that can still be used is cached for the name. */
  predicate Misses(r: ResolverState, name: string, asked: real) {
    !(name in r.cache && asked < r.cache[name].1)
  }

  /** What one event does to what is cached and recorded for a name. */
  lemma NameStep(ttl: real, policies: seq<Policy>, s: Sys, e: Event, name: string)
    requires |s.clients| == |policies|
    ensures var r, t := s.resolver, Step(ttl, policies, s, e).resolver;
            && (name in r.records ==> name in t.records)
            && (if LooksUp(policies, s, e, name) && Misses(r, name, AskedAt(e)) && name in r.records then
                  name in t.cache && t.cache[name] == (r.records[name], End(e) + ttl)
                else (name in t.cache <==> name in r.cache) && (name in r.cache ==> t.cache[name] == r.cache[name]))
  {
  }

  lemma {:induction false} EntryKept(ttl: real, policies: seq<Policy>, s: Sys, es: seq<Event>, name: string,
                                     entry: (int, real), from: real, until: real)
    requires |s.clients| == |policies| && name in s.resolver.cache && s.resolver.cache[name] == entry
    requires InOrder(es, from, until) && until < entry.1
    ensures var t := Play(ttl, policies, s, es);
            name in t.resolver.cache && t.resolver.cache[name] == entry
  {
    if es != [] {
      var older, e := es[..|es| - 1], es[|es| - 1];
      EntryKept(ttl, policies, s, older, name, entry, from, Start(e));
      NameStep(ttl, policies, Play(ttl, policies, s, older), e, name);
    }
  }

  /**
   Once a lookup that missed was stored, any lookup of that name asked within the time to live is answered from the
   cache with that same port, and without a query, whatever happened in between: repointings too.
   */
  lemma CachedUntilExpiry(ttl: real, policies: seq<Policy>, s: Sys, e: Event, name: string,
                          es: seq<Event>, asked: real, stored: real)
    requires |s.clients| == |policies| && LooksUp(policies, s, e, name) && Misses(s.resolver, name, AskedAt(e))
    requires name in s.resolver.records && InOrder(es, End(e), asked) && asked < End(e) + ttl
    ensures var r := Play(ttl, policies, Step(ttl, policies, s, e), es).resolver;
            Resolved(ttl, r, name, asked, stored) == (r.(cacheHits := r.cacheHits + 1), Some(s.resolver.records[name]))
  {
    NameStep(ttl, policies, s, e, name);
    var t := Step(ttl, policies, s, e);
    EntryKept(ttl, policies, t, es, name, (s.resolver.records[name], End(e) + ttl), End(e), asked);
  }

  /** No event of the run looks the name up. */
  predicate NoLookUps(ttl: real, policies: seq<Policy>, s: Sys, es: seq<Event>, name: string)
    requires |s.clients| == |policies|
  {
    es == [] ||
    (NoLookUps(ttl, policies, s, es[..|es| - 1], name) &&
     !LooksUp(policies, Play(ttl, policies, s, es[..|es| - 1]), es[|es| - 1], name))
  }

  lemma {:induction false} Unasked(ttl: real, policies: seq<Policy>, s: Sys, es: seq<Event>, name: string)
    requires |s.clients| == |policies| && NoLookUps(ttl, policies, s, es, name) && name in s.resolver.cache
    requires name in s.resolver.records
    ensures var t := Play(ttl, policies, s, es);
            name in t.resolver.cache && t.resolver.cache[name] == s.resolver.cache[name] && name in t.resolver.records
  {
    if es != [] {
      var older, e := es[..|es| - 1], es[|es| - 1];
      Unasked(ttl, policies, s, older, name);
      NameStep(ttl, policies, Play(ttl, policies, s, older), e, name);
    }
  }

  /** The next lookup at or after the expiry asks again: it gives the record there is then, at one more query. */
  lemma ExpiredAsksAgain(ttl: real, policies: seq<Policy>, s: Sys, e: Event, name: string,
                         es: seq<Event>, asked: real, stored: real)
    requires |s.clients| == |policies| && LooksUp(policies, s, e, name) && Misses(s.resolver, name, AskedAt(e))
    requires name in s.resolver.records && NoLookUps(ttl, policies, Step(ttl, policies, s, e), es, name)
    requires asked >= End(e) + ttl
    ensures var r := Play(ttl, policies, Step(ttl, policies, s, e), es).resolver;
            var (r', port) := Resolved(ttl, r, name, asked, stored);
            && name in r.records && port == Some(r.records[name]) && r'.queries == r.queries + 1
            && r'.cacheHits == r.cacheHits && name in r'.cache && r'.cache[name] == (r.records[name], stored + ttl)
  {
    NameStep(ttl, policies, s, e, name);
    Unasked(ttl, policies, Step(ttl, policies, s, e), es, name);
  }

  predicate LooksUpAny(policies: seq<Policy>, s: Sys, e: Event)
    requires |s.clients| == |policies|
  {
    e.LookUp? || (e.Ask? && e.client < |policies| && MustConnect(policies[e.client], s.clients[e.client], e.q.now))
  }

  function LookUps(ttl: real, policies: seq<Policy>, s: Sys, es: seq<Event>): nat
    requires |s.clients| == |policies|
  {
    if es == [] then 0
    else
      LookUps(ttl, policies, s, es[..|es| - 1]) +
      if LooksUpAny(policies, Play(ttl, policies, s, es[..|es| - 1]), es[|es| - 1]) then 1 else 0
  }

  /** Every lookup, and nothing else, is a query or a cache hit. */
  lemma {:induction false} EveryLookUpCounted(ttl: real, policies: seq<Policy>, s: Sys, es: seq<Event>)
    requires |s.clients| == |policies|
    ensures var t := Play(ttl, policies, s, es).resolver;
            t.queries + t.cacheHits == s.resolver.queries + s.resolver.cacheHits + LookUps(ttl, policies, s, es)
  {
    if es != [] {
      EveryLookUpCounted(ttl, policies, s, es[..|es| - 1]);
    }
  }

  /** Lookups of a name that the cache could not answer. */
  function QueriesOf(ttl: real, policies: seq<Policy>, s: Sys, es: seq<Event>, name: string): nat
    requires |s.clients| == |policies|
  {
    if es == [] then 0
    else
      var t, e := Play(ttl, policies, s, es[..|es| - 1]), es[|es| - 1];
      QueriesOf(ttl, policies, s, es[..|es| - 1], name) +
      if LooksUp(policies, t, e, name) && Misses(t.resolver, name, AskedAt(e)) then 1 else 0
  }

  lemma {:induction false} QueriesApart(ttl: real, policies: seq<Policy>, s: Sys, es: seq<Event>, name: string,
                                        until: real)
    requires |s.clients| == |policies| && ttl >= 0.0 && InOrder(es, 0.0, until)
    requires name in s.resolver.records && name !in s.resolver.cache
    ensures var t, n := Play(ttl, policies, s, es).resolver, QueriesOf(ttl, policies, s, es, name);
            && name in t.records && (name in t.cache <==> n > 0)
            && (n > 0 ==> Times(n, ttl) <= t.cache[name].1 <= until + ttl)
  {
    if es != [] {
      var older, e := es[..|es| - 1], es[|es| - 1];
      QueriesApart(ttl, policies, s, older, name, Start(e));
      OrderedTimes(older, 0.0, Start(e));
      NameStep(ttl, policies, Play(ttl, policies, s, older), e, name);
    }
  }

  /** Up to time R a name is queried at most as often as the whole part of R / time to live, plus one. */
  lemma QueryBound(ttl: real, policies: seq<Policy>, s: Sys, es: seq<Event>, name: string, until: real)
    requires |s.clients| == |policies| && ttl > 0.0 && InOrder(es, 0.0, until)
    requires name in s.resolver.records && name !in s.resolver.cache
    ensures QueriesOf(ttl, policies, s, es, name) <= (until / ttl).Floor + 1
  {
    QueriesApart(ttl, policies, s, es, name, until);
    OrderedTimes(es, 0.0, until);
    var n := QueriesOf(ttl, policies, s, es, name);
    var m: nat := if n == 0 then 0 else n - 1;
    TimesIsProduct(m, ttl);
    WholePart(m, until, ttl);
  }

  lemma {:induction false} OrderedTimes(es: seq<Event>, from: real, until: real)
    requires InOrder(es, from, until)
    ensures from <= until
  {
    if es != [] {
      OrderedTimes(es[..|es| - 1], from, Start(es[|es| - 1]));
    }
  }

  /** A client of a name that was never pointed anywhere records nothing: every request ends in the KeyError. */
  lemma {:induction false} UnknownName(ttl: real, policies: seq<Policy>, es: seq<Event>, i: nat)
    requires i < |policies| && NeverMoved(es, policies[i].host)
    ensures var t := Play(ttl, policies, Fresh(|policies|), es);
            && policies[i].host !in t.resolver.records && policies[i].host !in t.resolver.cache
            && t.clients[i] == Unconnected()
  {
    if es != [] {
      UnknownName(ttl, policies, es[..|es| - 1], i);
    }
  }

  // ---------------------------------------------------------------- one client on its own

  /** A request, and what the resolver would answer. */
  type Try = (Req, Option<int>)

  /** The client's requests, one after the other. */
  function Requests(p: Policy, c: ClientState, qs: seq<Try>): ClientState {
    if qs == [] then c
    else
      var (q, port) := qs[|qs| - 1];
      Requested(p, Requests(p, c, qs[..|qs| - 1]), q, port)
  }

  /** The requests start at times from..until, in order. */
  ghost predicate Ordered(qs: seq<Try>, from: real, until: real) {
    if qs == [] then from <= until
    else
      var now := qs[|qs| - 1].0.now;
      now <= until && Ordered(qs[..|qs| - 1], from, now)
  }

  /** A healthy network: the name is known, every connect succeeds and every request is answered. */
  ghost predicate Healthy(qs: seq<Try>) {
    forall i :: 0 <= i < |qs| ==> qs[i].1.Some? && qs[i].0.connects && qs[i].0.reply.Status?
  }

  /** Requests that end without a connection. */
  function Losses(p: Policy, qs: seq<Try>): nat {
    if qs == [] then 0
    else Losses(p, qs[..|qs| - 1]) + if Requests(p, Unconnected(), qs).conn.None? then 1 else 0
  }

  /** The connection is given up for having been idle, and not for its age. */
  predicate RetiredIdle(p: Policy, c: ClientState, now: real) {
    ShouldRetire(p, c, now) && !(p.maxLifetime.Some? && now - c.openedAt > p.maxLifetime.value)
  }

  function IdleRetirements(p: Policy, qs: seq<Try>): nat {
    if qs == [] then 0
    else
      var older, now := qs[..|qs| - 1], qs[|qs| - 1].0.now;
      IdleRetirements(p, older) + if RetiredIdle(p, Requests(p, Unconnected(), older), now) then 1 else 0
  }

  /** Result i is that of try i, which was served exactly when a server was reached and answered. */
  ghost predicate Recorded(p: Policy, qs: seq<Try>, results: seq<Result>, i: nat)
    requires i < |qs|
  {
    var q, reached := qs[i].0, !MustConnect(p, Requests(p, Unconnected(), qs[..i]), qs[i].0.now) || qs[i].0.connects;
    i < |results| && results[i].at == q.now &&
    if reached && q.reply.Status? then results[i].servedBy.Some? && results[i].ok == q.reply.ok
    else results[i].servedBy.None? && !results[i].ok
  }

  /**
   With a name that is known, a client holds a connection exactly when its last request was answered, it is the one to
   the server that did, and that was when it was last used.
   */
  lemma {:induction false} HoldsWhoServed(p: Policy, qs: seq<Try>)
    requires forall i :: 0 <= i < |qs| ==> qs[i].1.Some?
    ensures var c := Requests(p, Unconnected(), qs);
            && |c.results| == |qs| && (forall i: nat :: i < |qs| ==> Recorded(p, qs, c.results, i))
            && c.conn == (if qs == [] then None else c.results[|qs| - 1].servedBy)
            && (c.conn.Some? ==> c.lastUsed == qs[|qs| - 1].0.now)
  {
    if qs != [] {
      var older, n := qs[..|qs| - 1], |qs| - 1;
      HoldsWhoServed(p, older);
      var c := Requests(p, Unconnected(), qs);
      forall i: nat | i < |qs| ensures Recorded(p, qs, c.results, i) {
        if i < n {
          assert Recorded(p, older, Requests(p, Unconnected(), older).results, i);
          assert older[..i] == qs[..i];
        }
      }
    }
  }

  function Times(n: nat, length: real): real {
    if n == 0 then 0.0 else Times(n - 1, length) + length
  }

  lemma {:induction false} TimesIsProduct(n: nat, length: real)
    ensures Times(n, length) == n as real * length
  {
    if n > 0 {
      TimesIsProduct(n - 1, length);
    }
  }

  /** Every handshake but the first replaces a lost connection, an idle one, or one a whole lifetime older. */
  lemma {:induction false} HandshakesApart(p: Policy, qs: seq<Try>, length: real, until: real) returns (aged: nat)
    requires p.maxLifetime == Some(length) && length >= 0.0 && Ordered(qs, 0.0, until)
    ensures var c := Requests(p, Unconnected(), qs);
            Times(aged, length) <= c.openedAt <= until &&
            c.handshakes + (if c.conn.None? then 1 else 0) <= aged + IdleRetirements(p, qs) + 1 + Losses(p, qs)
  {
    aged := 0;
    if qs != [] {
      var older, q := qs[..|qs| - 1], qs[|qs| - 1].0;
      aged := HandshakesApart(p, older, length, q.now);
      var c, c' := Requests(p, Unconnected(), older), Requests(p, Unconnected(), qs);
      if c.conn.Some? && q.now - c.openedAt > length && c'.handshakes > c.handshakes {
        aged := aged + 1;
      }
    }
  }

  /**
   With a maximum lifetime L, the handshakes up to time R are at most the whole part of R / L, plus one, plus one for
   every connection lost or retired for being idle; a healthy network loses none.
   */
  lemma HandshakeBound(p: Policy, qs: seq<Try>, length: real, until: real)
    requires p.maxLifetime == Some(length) && length > 0.0 && Ordered(qs, 0.0, until)
    ensures Requests(p, Unconnected(), qs).handshakes <=
              (until / length).Floor + 1 + Losses(p, qs) + IdleRetirements(p, qs)
    ensures Healthy(qs) ==> Losses(p, qs) == 0
    ensures p.idleExpiry.None? ==> IdleRetirements(p, qs) == 0
  {
    var aged := HandshakesApart(p, qs, length, until);
    TimesIsProduct(aged, length);
    WholePart(aged, until, length);
    NothingLost(p, qs);
  }

  lemma {:induction false} NothingLost(p: Policy, qs: seq<Try>)
    ensures Healthy(qs) ==> Losses(p, qs) == 0
    ensures p.idleExpiry.None? ==> IdleRetirements(p, qs) == 0
  {
    if qs != [] {
      NothingLost(p, qs[..|qs| - 1]);
    }
  }

  lemma WholePart(n: nat, total: real, length: real)
    requires length > 0.0 && n as real * length <= total
    ensures n <= (total / length).Floor
  {
    var ratio := total / length;
    assert ratio * length == total;
    assert n as real <= ratio;
  }

  /** A lifetime of nothing is no pool at all: one handshake for every request, when no two share an instant. */
  lemma {:induction false} ZeroLifetimeIsNoPool(p: Policy, qs: seq<Try>, until: real)
    requires p.maxLifetime == Some(0.0) && Ordered(qs, 0.0, until) && Healthy(qs)
    requires forall i, j :: 0 <= i < j < |qs| ==> qs[i].0.now < qs[j].0.now
    ensures var c := Requests(p, Unconnected(), qs);
            c.handshakes == |qs| && (qs != [] ==> c.conn.Some? && c.openedAt == qs[|qs| - 1].0.now)
  {
    if qs != [] {
      var older := qs[..|qs| - 1];
      ZeroLifetimeIsNoPool(p, older, qs[|qs| - 1].0.now);
      assert older != [] ==> older[|older| - 1] == qs[|qs| - 2];
    }
  }

  /** With a maximum lifetime alone, a healthy client connects just once exactly when it asks no longer than that. */
  lemma {:induction false} OneHandshakeExactly(p: Policy, qs: seq<Try>, length: real, until: real)
    requires p.maxLifetime == Some(length) && length >= 0.0 && p.idleExpiry.None? && qs != []
    requires Ordered(qs, 0.0, until) && Healthy(qs)
    ensures var c := Requests(p, Unconnected(), qs);
            && c.conn.Some? && c.handshakes >= 1
            && (c.handshakes == 1 <==> forall i :: 0 <= i < |qs| ==> qs[i].0.now - qs[0].0.now <= length)
            && (c.handshakes == 1 ==> c.openedAt == qs[0].0.now)
  {
    var older, n := qs[..|qs| - 1], |qs| - 1;
    if n > 0 {
      OneHandshakeExactly(p, older, length, qs[n].0.now);
      assert forall i :: 0 <= i < n ==> older[i] == qs[i];
      assert qs[0] == older[0];
    } else {
      assert Requests(p, Unconnected(), older) == Unconnected();
    }
  }

  /** The time since the connection was last used, at each request, never exceeds the idle expiry. */
  ghost predicate NeverIdle(p: Policy, lastUsed: real, qs: seq<Try>) {
    p.idleExpiry.None? ||
    forall i :: 0 <= i < |qs| ==> GapFits(p.idleExpiry.value, lastUsed, qs, i)
  }

  ghost predicate GapFits(expiry: real, lastUsed: real, qs: seq<Try>, i: int)
    requires 0 <= i < |qs|
  {
    qs[i].0.now - (if i == 0 then lastUsed else qs[i - 1].0.now) <= expiry
  }

  lemma NeverIdleFirst(p: Policy, lastUsed: real, qs: seq<Try>)
    requires qs != []
    ensures var older, n := qs[..|qs| - 1], |qs| - 1;
            NeverIdle(p, lastUsed, qs) <==>
            NeverIdle(p, lastUsed, older) && (p.idleExpiry.None? || GapFits(p.idleExpiry.value, lastUsed, qs, n))
  {
    if p.idleExpiry.Some? {
      var older, expiry := qs[..|qs| - 1], p.idleExpiry.value;
      forall i | 0 <= i < |older| ensures GapFits(expiry, lastUsed, older, i) <==> GapFits(expiry, lastUsed, qs, i) {
      }
    }
  }

  /**
   Without a maximum lifetime, a client that holds a healthy connection never asks the resolver again exactly when no
   gap between its requests exceeds its idle expiry; and exactly then, once the name has moved, is it served by the
   port it holds for ever.
   */
  lemma {:induction false} PinnedForEver(p: Policy, c: ClientState, qs: seq<Try>, from: real, until: real)
    requires p.maxLifetime.None? && c.conn.Some? && Ordered(qs, from, until) && Healthy(qs)
    ensures var d := Requests(p, c, qs);
            d.conn.Some? && (|qs| > 0 ==> d.lastUsed == qs[|qs| - 1].0.now) && (qs == [] ==> d == c) &&
            d.handshakes >= c.handshakes && (d.handshakes == c.handshakes <==> NeverIdle(p, c.lastUsed, qs)) &&
            |d.results| == |c.results| + |qs| &&
            (NeverIdle(p, c.lastUsed, qs) ==> d.conn == c.conn && AllServedBy(c, d)) &&
            (MovedAway(c, qs) && AllServedBy(c, d) ==> NeverIdle(p, c.lastUsed, qs))
  {
    if qs != [] {
      var older := qs[..|qs| - 1];
      PinnedForEver(p, c, older, from, qs[|qs| - 1].0.now);
      NeverIdleFirst(p, c.lastUsed, qs);
      var mid := Requests(p, c, older);
      assert mid.lastUsed == if |qs| == 1 then c.lastUsed else qs[|qs| - 2].0.now;
      var d := Requests(p, c, qs);
      if MovedAway(c, qs) && AllServedBy(c, d) {
        assert MovedAway(c, older);
        forall i | |c.results| <= i < |mid.results| ensures mid.results[i].servedBy == c.conn {
          assert mid.results[i] == d.results[i];
        }
        assert d.results[|mid.results|].servedBy == c.conn;
        assert qs[|qs| - 1].1 != c.conn;
      }
    }
  }

  /** Every result since then was served by the connection held at the start. */
  ghost predicate AllServedBy(c: ClientState, d: ClientState) {
    forall i :: |c.results| <= i < |d.results| ==> d.results[i].servedBy == c.conn
  }

  /** The resolver no longer answers with the port the client holds. */
  ghost predicate MovedAway(c: ClientState, qs: seq<Try>) {
    forall i :: 0 <= i < |qs| ==> qs[i].1 != c.conn
  }

  // ---------------------------------------------------------------- the error window

  /** Seconds from the switch until this client next succeeds against the new server. */
  method ErrorWindow(results: seq<Result>, switchAt: real, port: int) returns (w: Option<real>)
    ensures w.None? ==> forall i :: 0 <= i < |results| ==> !Good(results[i], switchAt, port)
    ensures w.Some? ==> exists i :: 0 <= i < |results| && Good(results[i], switchAt, port) &&
                          w.value == results[i].at - switchAt &&
                          forall j :: 0 <= j < i ==> !Good(results[j], switchAt, port)
  {
    for i := 0 to |results|
      invariant forall j :: 0 <= j < i ==> !Good(results[j], switchAt, port)
    {
      if results[i].at >= switchAt && results[i].ok && results[i].servedBy == Some(port) {
        return Some(results[i].at - switchAt);
      }
    }
    return None;
  }

  predicate Good(r: Result, switchAt: real, port: int) {
    r.at >= switchAt && r.ok && r.servedBy == Some(port)
  }
}
