/**
 Batching on event-loop ticks. A loader collects the keys asked for during one tick and answers them all with one
 query; three endpoints that list orders with their customers' emails use it well, badly, and not at all.

 A promise is named by its number, in order of creation. Tables do not change while an endpoint runs;
 customer ids are unique, as the primary key of that table makes them.
 */
module Dataloader {
  import opened Common

  datatype Order = Order(id: int, customer: int, status: string)

  datatype Line = Line(id: int, status: string, email: string)

  // ---------------------------------------------------------------- the database, with its counter

  /** Those of the ids that the table holds. */
  function Existing(customers: map<int, string>, ids: seq<int>): set<int> {
    set id | id in ids && id in customers
  }

  class CountingClient {
    const orders: seq<Order>
    const customers: map<int, string>
    var queries: nat
    var rows: nat
    var counting: bool

    /** What the counters hold after some queries that returned so many rows in all. */
    ghost predicate Counted(counting: bool, queries: nat, rows: nat, more: nat, moreRows: nat)
      reads this
    {
      && this.counting == counting
      && this.queries == queries + (if counting then more else 0)
      && this.rows == rows + (if counting then moreRows else 0)
    }

    constructor (orders: seq<Order>, customers: map<int, string>)
      ensures this.orders == orders && this.customers == customers && Counted(false, 0, 0, 0, 0)
    {
      this.orders, this.customers := orders, customers;
      queries, rows, counting := 0, 0, false;
    }

    method Begin()
      modifies this
      ensures Counted(true, 0, 0, 0, 0)
    {
      counting, queries, rows := true, 0, 0;
    }

    method End() returns (q: nat, r: nat)
      modifies this
      ensures q == old(queries) && r == old(rows) && Counted(false, old(queries), old(rows), 0, 0)
    {
      counting := false;
      return queries, rows;
    }

    method Count(rowCount: nat)
      modifies this
      ensures Counted(old(counting), old(queries), old(rows), 1, rowCount)
    {
      if counting {
        queries := queries + 1;
        rows := rows + rowCount;
      }
    }

    /** The orders by id, up to a limit; the table is given in that order. */
    method SelectOrders(limit: nat) returns (result: seq<Order>)
      modifies this
      ensures result == orders[..Min(limit, |orders|)]
      ensures Counted(old(counting), old(queries), old(rows), 1, |result|)
    {
      result := orders[..Min(limit, |orders|)];
      Count(|result|);
    }

    method SelectCustomer(id: int) returns (result: seq<(int, string)>)
      modifies this
      ensures result == if id in customers then [(id, customers[id])] else []
      ensures Counted(old(counting), old(queries), old(rows), 1, |result|)
    {
      result := if id in customers then [(id, customers[id])] else [];
      Count(|result|);
    }

    /** The rows of these customers, in no promised order. */
    method SelectCustomers(ids: seq<int>) returns (result: seq<(int, string)>)
      modifies this
      ensures forall row <- result :: row.0 in ids && row.0 in customers && row.1 == customers[row.0]
      ensures forall id <- ids :: id in customers ==> (id, customers[id]) in result
      ensures Counted(old(counting), old(queries), old(rows), 1, |Existing(customers, ids)|)
    {
      result := [];
      ghost var seen: set<int> := {};
      for i := 0 to |ids|
        invariant seen == set id | id in ids[..i] && id in customers
        invariant |seen| == |result| && forall row <- result :: row.0 in seen && row.1 == customers[row.0]
        invariant forall id <- seen :: (id, customers[id]) in result
      {
        var id := ids[i];
        if id in customers && (id, customers[id]) !in result {
          result := result + [(id, customers[id])];
          seen := seen + {id};
        }
      }
      assert ids[..|ids|] == ids;
      assert seen == Existing(customers, ids);
      Count(|result|);
    }
  }

  // ---------------------------------------------------------------- the loader on its event loop

  datatype Outcome = Resolved(email: Option<string>) | Rejected

  /** A batch: the promises from..upto. */
  datatype Batch = Batch(from: nat, upto: nat)

  /**
   The key of every promise made; those from `flushed` on are queued. `callbacks` is what waits for `process.nextTick`;
   `sent` lists the batches whose query was issued, in order.
   */
  datatype LoaderState = LoaderState(
    keys: seq<int>,
    flushed: nat,
    scheduled: bool,
    callbacks: nat,
    inFlight: set<Batch>,
    settled: map<nat, Outcome>,
    sent: seq<Batch>)

  /**
   `EndTick`: the code that is under way ends, with the promise continuations that follow it, and the event loop runs
   the waiting callbacks.
   */
  datatype Event = Load(key: int) | EndTick | Arrive(batch: Batch, fails: bool)

  function Lookup(customers: map<int, string>, key: int): Option<string> {
    if key in customers then Some(customers[key]) else None
  }

  function Settlement(customers: map<int, string>, keys: seq<int>, batch: Batch, fails: bool): map<nat, Outcome>
    requires batch.upto <= |keys|
  {
    map i: nat | batch.from <= i < batch.upto :: if fails then Rejected else Resolved(Lookup(customers, keys[i]))
  }

  function Empty(): LoaderState { LoaderState([], 0, false, 0, {}, map[], []) }

  /** `flush`: the queue becomes a batch, unless it is empty. */
  ghost function Flushed(s: LoaderState): LoaderState {
    var batch, t := Batch(s.flushed, |s.keys|), s.(flushed := |s.keys|, scheduled := false);
    if s.flushed == |s.keys| then t else t.(inFlight := s.inFlight + {batch}, sent := s.sent + [batch])
  }

  ghost predicate Enabled(s: LoaderState, e: Event) {
    e.Arrive? ==> e.batch in s.inFlight && e.batch.upto <= |s.keys|
  }

  ghost function Apply(customers: map<int, string>, s: LoaderState, e: Event): LoaderState
    requires Enabled(s, e)
  {
    match e
    case Load(key) =>
      s.(keys := s.keys + [key], scheduled := true, callbacks := s.callbacks + if s.scheduled then 0 else 1)
    case EndTick => if s.callbacks == 0 then s else Flushed(s).(callbacks := 0)
    case Arrive(batch, fails) =>
      s.(inFlight := s.inFlight - {batch}, settled := s.settled + Settlement(customers, s.keys, batch, fails))
  }

  /** The events, newest first, can have happened to a new loader. */
  ghost predicate Possible(customers: map<int, string>, es: seq<Event>) {
    es == [] || (Possible(customers, es[1..]) && Enabled(Play(customers, es[1..]), es[0]))
  }

  /** The state they lead to. */
  ghost function Play(customers: map<int, string>, es: seq<Event>): LoaderState {
    if es == [] then Empty()
    else
      var s, e := Play(customers, es[1..]), es[0];
      if Enabled(s, e) then Apply(customers, s, e) else s
  }

  ghost predicate Holds(batch: Batch, i: nat) { batch.from <= i < batch.upto }

  /** Promise i is in exactly the place it should be: the queue, one batch in flight, or settled. */
  ghost predicate Placed(s: LoaderState, i: nat) {
    && (i in s.settled ==> i < s.flushed && forall batch <- s.inFlight :: !Holds(batch, i))
    && (i < s.flushed && i !in s.settled ==> exists batch <- s.inFlight :: Holds(batch, i))
  }

  ghost predicate Inv(s: LoaderState) {
    && s.flushed <= |s.keys|
    && (s.scheduled <==> s.flushed < |s.keys|) && s.callbacks == (if s.scheduled then 1 else 0)
    && (forall batch <- s.inFlight :: batch.from < batch.upto <= s.flushed)
    && (forall a <- s.inFlight, b <- s.inFlight :: a == b || a.upto <= b.from || b.upto <= a.from)
    && (forall i: nat :: Placed(s, i))
  }

  lemma LoadKeeps(customers: map<int, string>, s: LoaderState, key: int)
    requires Inv(s)
    ensures Inv(Apply(customers, s, Load(key)))
  {
    var t := Apply(customers, s, Load(key));
    forall i: nat ensures Placed(t, i) {
      assert Placed(s, i);
    }
  }

  lemma EndTickKeeps(customers: map<int, string>, s: LoaderState)
    requires Inv(s)
    ensures Inv(Apply(customers, s, EndTick))
  {
    var t, more := Apply(customers, s, EndTick), Batch(s.flushed, |s.keys|);
    forall i: nat ensures Placed(t, i) {
      assert Placed(s, i);
      if i < t.flushed && i !in t.settled {
        if i < s.flushed {
          var batch :| batch in s.inFlight && Holds(batch, i);
          assert batch in t.inFlight;
        } else {
          assert more in t.inFlight && Holds(more, i);
        }
      }
    }
  }

  lemma ArriveKeeps(customers: map<int, string>, s: LoaderState, batch: Batch, fails: bool)
    requires Inv(s) && Enabled(s, Arrive(batch, fails))
    ensures Inv(Apply(customers, s, Arrive(batch, fails)))
  {
    var t := Apply(customers, s, Arrive(batch, fails));
    forall i: nat ensures Placed(t, i) {
      assert Placed(s, i);
      if i < t.flushed && i !in t.settled {
        assert !Holds(batch, i);
        var other :| other in s.inFlight && Holds(other, i);
        assert other in t.inFlight;
      }
    }
  }

  lemma {:induction false} PlayKeepsInv(customers: map<int, string>, es: seq<Event>)
    requires Possible(customers, es)
    ensures Inv(Play(customers, es))
  {
    if es != [] {
      var s := Play(customers, es[1..]);
      PlayKeepsInv(customers, es[1..]);
      match es[0]
      case Load(key) => LoadKeeps(customers, s, key);
      case EndTick => EndTickKeeps(customers, s);
      case Arrive(batch, fails) => ArriveKeeps(customers, s, batch, fails);
    }
  }

  /** An arriving batch never touches a promise that has settled, so each settles once. */
  lemma SettlesOnce(customers: map<int, string>, es: seq<Event>, batch: Batch, fails: bool)
    requires Possible(customers, es) && Enabled(Play(customers, es), Arrive(batch, fails))
    ensures var s := Play(customers, es);
            && Settlement(customers, s.keys, batch, fails).Keys !! s.settled.Keys
            && forall i <- s.settled :: Apply(customers, s, Arrive(batch, fails)).settled[i] == s.settled[i]
  {
    PlayKeepsInv(customers, es);
    var s := Play(customers, es);
    forall i <- s.settled ensures !Holds(batch, i) {
      assert Placed(s, i);
    }
  }

  /** The query of the batch that holds promise i came back as a failure. */
  ghost predicate Failed(es: seq<Event>, i: nat) {
    exists n :: 0 <= n < |es| && FailsAt(es[n], i)
  }

  ghost predicate FailsAt(e: Event, i: nat) { e.Arrive? && e.fails && Holds(e.batch, i) }

  /** What a promise has been settled with: a rejection if its query failed, the direct lookup of its key if not. */
  ghost predicate SettledRight(customers: map<int, string>, es: seq<Event>, i: nat) {
    var s := Play(customers, es);
    && (i in s.settled ==>
         i < |s.keys| && s.settled[i] == if Failed(es, i) then Rejected else Resolved(Lookup(customers, s.keys[i])))
    && (Failed(es, i) ==> i in s.settled)
  }

  lemma FailedMore(older: seq<Event>, e: Event, i: nat)
    ensures Failed([e] + older, i) <==> Failed(older, i) || FailsAt(e, i)
  {
    var es := [e] + older;
    assert es[0] == e;
    if n :| 0 <= n < |older| && FailsAt(older[n], i) {
      assert es[n + 1] == older[n];
    }
  }

  /** What an answer makes of promise i; no other event settles anything. */
  lemma ArriveSettlesRight(customers: map<int, string>, older: seq<Event>, batch: Batch, fails: bool, i: nat)
    requires SettledRight(customers, older, i) && Inv(Play(customers, older))
    requires Enabled(Play(customers, older), Arrive(batch, fails))
    ensures SettledRight(customers, [Arrive(batch, fails)] + older, i)
  {
    var e := Arrive(batch, fails);
    assert ([e] + older)[1..] == older;
    FailedMore(older, e, i);
    assert Placed(Play(customers, older), i);
  }

  lemma OthersSettleNothing(customers: map<int, string>, older: seq<Event>, e: Event, i: nat)
    requires SettledRight(customers, older, i) && !e.Arrive?
    ensures SettledRight(customers, [e] + older, i)
  {
    assert ([e] + older)[1..] == older;
    FailedMore(older, e, i);
  }

  lemma {:induction false} PlaySettlesRight(customers: map<int, string>, es: seq<Event>, i: nat)
    requires Possible(customers, es)
    ensures SettledRight(customers, es, i)
  {
    if es != [] {
      var older, e := es[1..], es[0];
      PlaySettlesRight(customers, older, i);
      PlayKeepsInv(customers, older);
      assert [e] + older == es;
      match e
      case Arrive(batch, fails) => ArriveSettlesRight(customers, older, batch, fails, i);
      case _ => OthersSettleNothing(customers, older, e, i);
    }
  }

  /**
   When nothing is queued or in flight every load has settled: it is rejected exactly when the query of its batch
   failed, and otherwise has what a direct lookup of its key returns.
   */
  lemma EveryLoadSettles(customers: map<int, string>, es: seq<Event>, i: nat)
    requires Possible(customers, es)
    requires var s := Play(customers, es); s.flushed == |s.keys| && s.inFlight == {} && i < |s.keys|
    ensures var s := Play(customers, es);
            && i in s.settled
            && s.settled[i] == if Failed(es, i) then Rejected else Resolved(Lookup(customers, s.keys[i]))
  {
    PlayKeepsInv(customers, es);
    PlaySettlesRight(customers, es, i);
    assert Placed(Play(customers, es), i);
  }

  // ---------------------------------------------------------------- the batching window

  /** A load has been made in the tick that is under way. */
  predicate LoadedSince(es: seq<Event>) {
    es != [] && !es[0].EndTick? && (es[0].Load? || LoadedSince(es[1..]))
  }

  /** Ticks that are over, and those of them in which a load was made. */
  function Ticks(es: seq<Event>): nat {
    if es == [] then 0 else Ticks(es[1..]) + if es[0].EndTick? then 1 else 0
  }

  function TicksWithLoad(es: seq<Event>): nat {
    if es == [] then 0
    else TicksWithLoad(es[1..]) + if es[0].EndTick? && LoadedSince(es[1..]) then 1 else 0
  }

  /** In which tick each promise was made. */
  function LoadTicks(es: seq<Event>): (r: seq<nat>) {
    if es == [] then []
    else LoadTicks(es[1..]) + if es[0].Load? then [Ticks(es[1..])] else []
  }

  /** Two promises went out in the same query. */
  ghost predicate SameBatch(s: LoaderState, p: nat, q: nat) {
    exists b <- s.sent :: Holds(b, p) && Holds(b, q)
  }

  ghost predicate TickInv(es: seq<Event>, s: LoaderState) {
    && |LoadTicks(es)| == |s.keys| && s.flushed <= |s.keys|
    && |s.sent| == TicksWithLoad(es) && (LoadedSince(es) <==> s.flushed < |s.keys|)
    && (forall b <- s.sent :: b.from < b.upto <= s.flushed)
    && (forall p :: 0 <= p < s.flushed ==> LoadTicks(es)[p] < Ticks(es))
    && (forall p :: s.flushed <= p < |s.keys| ==> LoadTicks(es)[p] == Ticks(es))
    && (forall p: nat, q: nat :: p < s.flushed && q < s.flushed ==>
          (SameBatch(s, p, q) <==> LoadTicks(es)[p] == LoadTicks(es)[q]))
  }

  lemma EndTickSends(es: seq<Event>, s: LoaderState, t: LoaderState)
    requires TickInv(es, s) && s.callbacks == (if s.flushed < |s.keys| then 1 else 0)
    requires t == if s.callbacks == 0 then s else Flushed(s).(callbacks := 0)
    ensures TickInv([EndTick] + es, t)
  {
    var more, last := [EndTick] + es, Batch(s.flushed, |s.keys|);
    assert more[1..] == es && LoadTicks(more) == LoadTicks(es);
    forall p: nat, q: nat | p < t.flushed && q < t.flushed
      ensures SameBatch(t, p, q) <==> LoadTicks(more)[p] == LoadTicks(more)[q]
    {
      if p < s.flushed && q < s.flushed {
        assert SameBatch(s, p, q) ==> SameBatch(t, p, q);
        if SameBatch(t, p, q) {
          var b :| b in t.sent && Holds(b, p) && Holds(b, q);
          assert b in s.sent;
        }
      } else if p >= s.flushed && q >= s.flushed {
        assert last in t.sent && Holds(last, p) && Holds(last, q);
      }
    }
  }

  lemma NothingSent(es: seq<Event>, s: LoaderState, e: Event, t: LoaderState)
    requires TickInv(es, s) && !e.EndTick? && t.flushed == s.flushed && t.sent == s.sent
    requires t.keys == if e.Load? then s.keys + [e.key] else s.keys
    ensures TickInv([e] + es, t)
  {
    var more := [e] + es;
    assert more[1..] == es && LoadTicks(more)[..|s.keys|] == LoadTicks(es);
    forall p: nat, q: nat | p < t.flushed && q < t.flushed
      ensures SameBatch(t, p, q) <==> LoadTicks(more)[p] == LoadTicks(more)[q]
    {
      assert LoadTicks(more)[p] == LoadTicks(es)[p] && LoadTicks(more)[q] == LoadTicks(es)[q];
      assert SameBatch(t, p, q) <==> SameBatch(s, p, q);
    }
    forall p | 0 <= p < |s.keys| ensures LoadTicks(more)[p] == LoadTicks(es)[p] {
    }
  }

  lemma {:induction false} PlayKeepsTickInv(customers: map<int, string>, es: seq<Event>)
    requires Possible(customers, es)
    ensures TickInv(es, Play(customers, es))
  {
    if es != [] {
      var older, e := es[1..], es[0];
      PlayKeepsTickInv(customers, older);
      PlayKeepsInv(customers, older);
      assert [e] + older == es;
      if e.EndTick? {
        EndTickSends(older, Play(customers, older), Play(customers, es));
      } else {
        NothingSent(older, Play(customers, older), e, Play(customers, es));
      }
    }
  }

  /** Over every run, the queries issued are exactly the ticks in which a load was made. */
  lemma OneQueryPerTick(customers: map<int, string>, es: seq<Event>)
    requires Possible(customers, es)
    ensures |Play(customers, es).sent| == TicksWithLoad(es)
  {
    PlayKeepsTickInv(customers, es);
  }

  /** And two loads share a query exactly when they were made in the same tick. */
  lemma SameTickSameBatch(customers: map<int, string>, es: seq<Event>, p: nat, q: nat)
    requires Possible(customers, es) && p < Play(customers, es).flushed && q < Play(customers, es).flushed
    ensures p < |LoadTicks(es)| && q < |LoadTicks(es)|
    ensures SameBatch(Play(customers, es), p, q) <==> LoadTicks(es)[p] == LoadTicks(es)[q]
  {
    PlayKeepsTickInv(customers, es);
  }

  function Arrivals(es: seq<Event>): nat {
    if es == [] then 0 else Arrivals(es[1..]) + if es[0].Arrive? then 1 else 0
  }

  /** Of the queries issued, each has arrived once or is still in flight. */
  lemma {:induction false} EveryQueryArrives(customers: map<int, string>, es: seq<Event>)
    requires Possible(customers, es)
    ensures TicksWithLoad(es) == Arrivals(es) + |Play(customers, es).inFlight|
  {
    if es != [] {
      var s := Play(customers, es[1..]);
      EveryQueryArrives(customers, es[1..]);
      PlayKeepsInv(customers, es[1..]);
      PlayKeepsTickInv(customers, es[1..]);
      PlayKeepsTickInv(customers, es);
      assert es[0].EndTick? ==> Batch(s.flushed, |s.keys|) !in s.inFlight;
    }
  }

  // ---------------------------------------------------------------- the loader itself

  /** The distinct keys, in order of first appearance. */
  function Unique(keys: seq<int>): (u: seq<int>)
    ensures forall k :: k in u <==> k in keys
    ensures forall i, j :: 0 <= i < j < |u| ==> u[i] != u[j]
  {
    if keys == [] then []
    else
      var last, older := keys[|keys| - 1], Unique(keys[..|keys| - 1]);
      if last in older then older else older + [last]
  }

  /** The loader with the callbacks it has waiting; `trace` and `sent` record what happened for the specification. */
  class BatchLoader {
    const db: CountingClient
    var keys: seq<int>
    var queue: seq<nat>
    var scheduled: bool
    var callbacks: nat
    var inFlight: set<Batch>
    var settled: map<nat, Outcome>
    ghost var sent: seq<Batch>
    ghost var trace: seq<Event>

    ghost predicate Valid()
      reads this
    {
      && |queue| <= |keys| && (forall i :: 0 <= i < |queue| ==> queue[i] == |keys| - |queue| + i)
      && Possible(db.customers, trace) && View() == Play(db.customers, trace)
    }

    ghost function View(): LoaderState
      reads this
    {
      LoaderState(keys, if |queue| <= |keys| then |keys| - |queue| else 0,
                  scheduled, callbacks, inFlight, settled, sent)
    }

    constructor (db: CountingClient)
      ensures Valid() && this.db == db && trace == []
    {
      this.db := db;
      keys, queue, scheduled, callbacks, inFlight, settled := [], [], false, 0, {}, map[];
      sent, trace := [], [];
    }

    method AddLoad(key: int) returns (promise: nat)
      requires Valid()
      modifies this
      ensures Valid() && trace == [Load(key)] + old(trace)
      ensures keys == old(keys) + [key] && promise == |old(keys)| && queue == old(queue) + [promise]
      ensures inFlight == old(inFlight) && settled == old(settled)
    {
      assert ([Load(key)] + trace)[1..] == trace;
      promise := |keys|;
      keys := keys + [key];
      queue := queue + [promise];
      if !scheduled {
        scheduled := true;
        callbacks := callbacks + 1;
      }
      trace := [Load(key)] + trace;
    }

    /** `flush` up to its query: exactly what was queued since the last one. */
    method RunFlush()
      requires |queue| <= |keys| && forall i :: 0 <= i < |queue| ==> queue[i] == |keys| - |queue| + i
      modifies this`queue, this`scheduled, this`inFlight, this`sent
      ensures queue == [] && View() == Flushed(old(View()))
    {
      var batch := queue;
      queue := [];
      scheduled := false;
      if |batch| == 0 {
        return;
      }
      var sending := Batch(batch[0], batch[0] + |batch|);
      inFlight := inFlight + {sending};
      sent := sent + [sending];
    }

    /** The tick ends, and the callbacks of `process.nextTick` run. */
    method RunEndTick()
      requires Valid()
      modifies this
      ensures Valid() && trace == [EndTick] + old(trace) && queue == [] && keys == old(keys) && settled == old(settled)
      ensures inFlight == old(inFlight) + if old(queue) == [] then {} else {Batch(|keys| - |old(queue)|, |keys|)}
    {
      PlayKeepsInv(db.customers, trace);
      assert ([EndTick] + trace)[1..] == trace;
      while callbacks > 0
        invariant 0 <= callbacks <= 1
        invariant if callbacks == old(callbacks) then View() == old(View()) && queue == old(queue)
                  else queue == [] && View() == Flushed(old(View())).(callbacks := 0)
        invariant |queue| <= |keys| && forall i :: 0 <= i < |queue| ==> queue[i] == |keys| - |queue| + i
        invariant trace == old(trace)
      {
        callbacks := callbacks - 1;
        RunFlush();
      }
      trace := [EndTick] + trace;
    }

    /** The batch function: one query for the distinct keys, and a map of its rows. */
    method FetchByKey(wanted: seq<int>) returns (byKey: map<int, string>)
      modifies db
      ensures forall k <- wanted :: Lookup(byKey, k) == Lookup(db.customers, k)
      ensures db.Counted(old(db.counting), old(db.queries), old(db.rows), 1, |Existing(db.customers, wanted)|)
    {
      var rows := db.SelectCustomers(Unique(wanted));
      assert Existing(db.customers, Unique(wanted)) == Existing(db.customers, wanted);
      byKey := map row <- rows :: row.0 := row.1;
      forall k <- wanted ensures Lookup(byKey, k) == Lookup(db.customers, k) {
        assert k in Unique(wanted);
        if k in db.customers {
          assert (k, db.customers[k]) in rows;
        }
      }
    }

    /** What the promises of a batch are settled with, once its query has returned or failed. */
    method Outcomes(batch: Batch, fails: bool) returns (outcomes: map<nat, Outcome>)
      requires batch.from <= batch.upto <= |keys|
      modifies db
      ensures outcomes == Settlement(db.customers, keys, batch, fails)
      ensures db.Counted(old(db.counting), old(db.queries), old(db.rows), if fails then 0 else 1,
                         if fails then 0 else |Existing(db.customers, keys[batch.from..batch.upto])|)
    {
      if fails {
        return Settlement(db.customers, keys, batch, true);
      }
      var wanted := keys[batch.from..batch.upto];
      var byKey := FetchByKey(wanted);
      assert forall i: nat :: batch.from <= i < batch.upto ==> keys[i] == wanted[i - batch.from];
      outcomes := Settlement(byKey, keys, batch, false);
    }

    method RunArrive(batch: Batch, fails: bool)
      requires Valid() && batch in inFlight
      modifies this, db
      ensures Valid() && trace == [Arrive(batch, fails)] + old(trace) && batch.from < batch.upto <= |keys|
      ensures keys == old(keys) && queue == old(queue) && inFlight == old(inFlight) - {batch}
      ensures settled == old(settled) + Settlement(db.customers, keys, batch, fails)
      ensures db.Counted(old(db.counting), old(db.queries), old(db.rows), if fails then 0 else 1,
                         if fails then 0 else |Existing(db.customers, keys[batch.from..batch.upto])|)
    {
      PlayKeepsInv(db.customers, trace);
      assert ([Arrive(batch, fails)] + trace)[1..] == trace;
      var outcomes := Outcomes(batch, fails);
      inFlight := inFlight - {batch};
      settled := settled + outcomes;
      trace := [Arrive(batch, fails)] + trace;
    }
  }

  // ---------------------------------------------------------------- the three endpoints

  /** The page, or the TypeError of reading the email of a customer who is not there. */
  datatype Reply = Page(lines: seq<Line>) | TypeError

  predicate AllKnown(customers: map<int, string>, orders: seq<Order>) {
    forall o <- orders :: o.customer in customers
  }

  function Lines(customers: map<int, string>, orders: seq<Order>): seq<Line>
    requires AllKnown(customers, orders)
  {
    if orders == [] then []
    else
      var o := orders[|orders| - 1];
      Lines(customers, orders[..|orders| - 1]) + [Line(o.id, o.status, customers[o.customer])]
  }

  /** What every variant should answer: a direct lookup for each order, in order. */
  function Listing(customers: map<int, string>, orders: seq<Order>): Reply {
    if AllKnown(customers, orders) then Page(Lines(customers, orders)) else TypeError
  }

  /** How many orders are looked at one by one: all of them, or up to the first whose customer is missing. */
  function Tried(customers: map<int, string>, orders: seq<Order>): nat {
    if orders == [] then 0
    else if orders[0].customer in customers then 1 + Tried(customers, orders[1..])
    else 1
  }

  function CustomersOf(orders: seq<Order>): (ids: seq<int>)
    ensures |ids| == |orders|
    ensures forall i :: 0 <= i < |orders| ==> ids[i] == orders[i].customer
  {
    if orders == [] then [] else CustomersOf(orders[..|orders| - 1]) + [orders[|orders| - 1].customer]
  }

  function FirstOrders(orders: seq<Order>, limit: nat): seq<Order> { orders[..Min(limit, |orders|)] }

  lemma {:induction false} TriedAll(customers: map<int, string>, orders: seq<Order>)
    requires AllKnown(customers, orders)
    ensures Tried(customers, orders) == |orders|
  {
    if orders != [] {
      assert orders[0].customer in customers;
      TriedAll(customers, orders[1..]);
    }
  }

  lemma {:induction false} TriedUpTo(customers: map<int, string>, orders: seq<Order>, i: nat)
    requires i < |orders| && AllKnown(customers, orders[..i]) && orders[i].customer !in customers
    ensures Tried(customers, orders) == i + 1 && !AllKnown(customers, orders)
  {
    if i > 0 {
      assert orders[..i][0] == orders[0];
      assert orders[1..][..i - 1] == orders[..i][1..];
      TriedUpTo(customers, orders[1..], i - 1);
    }
  }

  lemma OneMoreLine(customers: map<int, string>, orders: seq<Order>, i: nat)
    requires i < |orders| && AllKnown(customers, orders[..i]) && orders[i].customer in customers
    ensures AllKnown(customers, orders[..i + 1])
    ensures Lines(customers, orders[..i + 1]) ==
            Lines(customers, orders[..i]) + [Line(orders[i].id, orders[i].status, customers[orders[i].customer])]
  {
    assert orders[..i + 1] == orders[..i] + [orders[i]];
    assert orders[..i + 1][..i] == orders[..i];
  }

  /** One query for the orders and one more for each of them: N + 1. */
  method ResolverPerField(db: CountingClient, limit: nat) returns (reply: Reply)
    modifies db
    ensures var page := FirstOrders(db.orders, limit);
            && reply == Listing(db.customers, page)
            && db.Counted(old(db.counting), old(db.queries), old(db.rows), 1 + Tried(db.customers, page),
                          |page| + Tried(db.customers, page) - if reply.TypeError? then 1 else 0)
  {
    var orders := db.SelectOrders(limit);
    var out := [];
    for i := 0 to |orders|
      invariant AllKnown(db.customers, orders[..i]) && out == Lines(db.customers, orders[..i])
      invariant db.Counted(old(db.counting), old(db.queries), old(db.rows), 1 + i, |orders| + i)
    {
      var o := orders[i];
      var rows := db.SelectCustomer(o.customer);
      if rows == [] {
        TriedUpTo(db.customers, orders, i);
        return TypeError;
      }
      OneMoreLine(db.customers, orders, i);
      out := out + [Line(o.id, o.status, rows[0].1)];
    }
    assert orders[..|orders|] == orders;
    TriedAll(db.customers, orders);
    return Page(out);
  }

  /**
   `await`: the tick ends, and what is in flight arrives. The queries are those of the ticks that had a
   load, and every promise that was queued is settled.
   */
  method Await(loader: BatchLoader)
    requires loader.Valid() && loader.inFlight == {}
    modifies loader, loader.db
    ensures loader.Valid() && loader.inFlight == {} && loader.queue == [] && loader.keys == old(loader.keys)
    ensures !LoadedSince(loader.trace)
    ensures TickEnded(old(loader.trace), loader.trace)
    ensures TicksWithLoad(loader.trace) ==
              TicksWithLoad(old(loader.trace)) + if LoadedSince(old(loader.trace)) then 1 else 0
    ensures forall i: nat :: |loader.keys| - |old(loader.queue)| <= i < |loader.keys| ==>
              i in loader.settled && loader.settled[i] == Resolved(Lookup(loader.db.customers, loader.keys[i]))
    ensures var queued := old(loader.keys)[|old(loader.keys)| - |old(loader.queue)|..];
            loader.db.Counted(old(loader.db.counting), old(loader.db.queries), old(loader.db.rows),
              TicksWithLoad(loader.trace) - TicksWithLoad(old(loader.trace)), |Existing(loader.db.customers, queued)|)
  {
    ghost var es, queued := loader.trace, loader.keys[|loader.keys| - |loader.queue|..];
    AtRest(loader.db.customers, es);
    TicksMore(es, EndTick);
    loader.RunEndTick();
    if loader.inFlight == {} {
      assert queued == [] && Existing(loader.db.customers, queued) == {};
    } else {
      assert loader.inFlight == {Batch(|loader.keys| - |queued|, |loader.keys|)};
      LetArrive(loader, Batch(|loader.keys| - |queued|, |loader.keys|));
    }
  }

  /** The tick has ended, and at most one answer has come since. */
  ghost predicate TickEnded(es: seq<Event>, later: seq<Event>) {
    later == [EndTick] + es || (later != [] && later[0].Arrive? && later[1..] == [EndTick] + es)
  }

  /** The one query in flight is answered. */
  method LetArrive(loader: BatchLoader, ghost only: Batch)
    requires loader.Valid() && loader.inFlight == {only} && loader.queue == []
    requires only.from < only.upto == |loader.keys| && loader.trace != [] && loader.trace[0].EndTick?
    modifies loader, loader.db
    ensures loader.Valid() && loader.inFlight == {} && loader.queue == [] && loader.keys == old(loader.keys)
    ensures loader.trace == [Arrive(only, false)] + old(loader.trace) && !LoadedSince(loader.trace)
    ensures TicksWithLoad(loader.trace) == TicksWithLoad(old(loader.trace))
    ensures forall i: nat :: only.from <= i < |loader.keys| ==>
              i in loader.settled && loader.settled[i] == Resolved(Lookup(loader.db.customers, loader.keys[i]))
    ensures loader.db.Counted(old(loader.db.counting), old(loader.db.queries), old(loader.db.rows),
              1, |Existing(loader.db.customers, loader.keys[only.from..])|)
  {
    var batch :| batch in loader.inFlight;
    assert batch == only && loader.keys[only.from..only.upto] == loader.keys[only.from..];
    TicksMore(loader.trace, Arrive(only, false));
    loader.RunArrive(batch, false);
  }

  /** With nothing in flight the settled promises are those that are not queued. */
  lemma AtRest(customers: map<int, string>, es: seq<Event>)
    requires Possible(customers, es) && Play(customers, es).inFlight == {}
    ensures var s := Play(customers, es);
            && (forall i: nat :: i in s.settled <==> i < s.flushed)
            && s.flushed <= |s.keys| && (LoadedSince(es) <==> s.flushed < |s.keys|)
  {
    PlayKeepsInv(customers, es);
    PlayKeepsTickInv(customers, es);
    forall i: nat ensures i in Play(customers, es).settled <==> i < Play(customers, es).flushed {
      assert Placed(Play(customers, es), i);
    }
  }

  lemma TicksMore(es: seq<Event>, e: Event)
    ensures TicksWithLoad([e] + es) == TicksWithLoad(es) + if e.EndTick? && LoadedSince(es) then 1 else 0
    ensures LoadedSince([e] + es) <==> !e.EndTick? && (e.Load? || LoadedSince(es))
  {
    assert ([e] + es)[1..] == es;
  }

  /** Awaiting each load before the next: every tick has one load, every batch one key, and it is N + 1 again. */
  method DataloaderAcrossTicks(db: CountingClient, limit: nat) returns (reply: Reply)
    modifies db
    ensures var page := FirstOrders(db.orders, limit);
            && reply == Listing(db.customers, page)
            && db.Counted(old(db.counting), old(db.queries), old(db.rows), 1 + Tried(db.customers, page),
                          |page| + Tried(db.customers, page) - if reply.TypeError? then 1 else 0)
  {
    var loader := new BatchLoader(db);
    var orders := db.SelectOrders(limit);
    var out := [];
    for i := 0 to |orders|
      invariant AllKnown(db.customers, orders[..i]) && out == Lines(db.customers, orders[..i])
      invariant loader.Valid() && loader.queue == [] && loader.inFlight == {} && |loader.keys| == i
      invariant TicksWithLoad(loader.trace) == i && !LoadedSince(loader.trace)
      invariant db.Counted(old(db.counting), old(db.queries), old(db.rows),
                           1 + TicksWithLoad(loader.trace), |orders| + i)
    {
      var o := orders[i];
      var email := LoadAndAwait(loader, o.customer);
      if email.None? {
        TriedUpTo(db.customers, orders, i);
        return TypeError;
      }
      OneMoreLine(db.customers, orders, i);
      out := out + [Line(o.id, o.status, email.value)];
    }
    assert orders[..|orders|] == orders;
    TriedAll(db.customers, orders);
    return Page(out);
  }

  /** `await loader.load(key)` with nothing else queued: a tick of one load. */
  method LoadAndAwait(loader: BatchLoader, key: int) returns (email: Option<string>)
    requires loader.Valid() && loader.queue == [] && loader.inFlight == {} && !LoadedSince(loader.trace)
    modifies loader, loader.db
    ensures loader.Valid() && loader.queue == [] && loader.inFlight == {} && !LoadedSince(loader.trace)
    ensures loader.keys == old(loader.keys) + [key] && email == Lookup(loader.db.customers, key)
    ensures TicksWithLoad(loader.trace) == TicksWithLoad(old(loader.trace)) + 1
    ensures loader.db.Counted(old(loader.db.counting), old(loader.db.queries), old(loader.db.rows),
              TicksWithLoad(loader.trace) - TicksWithLoad(old(loader.trace)),
              if key in loader.db.customers then 1 else 0)
  {
    var promise := loader.AddLoad(key);
    TicksMore(old(loader.trace), Load(key));
    assert loader.keys[|loader.keys| - |loader.queue|..] == [key];
    assert Existing(loader.db.customers, [key]) == if key in loader.db.customers then {key} else {};
    Await(loader);
    email := loader.settled[promise].email;
  }

  /** All the loads in one synchronous map: one tick, so one batch, and two queries in all. */
  method DataloaderSameTick(db: CountingClient, limit: nat) returns (reply: Reply)
    modifies db
    ensures var page := FirstOrders(db.orders, limit);
            && reply == Listing(db.customers, page)
            && db.Counted(old(db.counting), old(db.queries), old(db.rows), if page == [] then 1 else 2,
                          |page| + |Existing(db.customers, CustomersOf(page))|)
  {
    var orders := db.SelectOrders(limit);
    var settled := LoadTogether(db, orders);
    reply := Emails(db.customers, orders, settled);
  }

  /** A new loader, a load for each order, and `Promise.all` over them. */
  method LoadTogether(db: CountingClient, orders: seq<Order>) returns (settled: map<nat, Outcome>)
    modifies db
    ensures forall i: nat :: i < |orders| ==>
              i in settled && settled[i] == Resolved(Lookup(db.customers, orders[i].customer))
    ensures db.Counted(old(db.counting), old(db.queries), old(db.rows), if orders == [] then 0 else 1,
                       |Existing(db.customers, CustomersOf(orders))|)
  {
    var loader := new BatchLoader(db);
    LoadAll(loader, orders);
    assert loader.keys[0..] == loader.keys;
    Await(loader);
    settled := loader.settled;
  }

  /** `orders.map` with a load each, and nothing awaited. */
  method LoadAll(loader: BatchLoader, orders: seq<Order>)
    requires loader.Valid() && loader.trace == [] && loader.keys == []
    modifies loader
    ensures loader.Valid() && loader.inFlight == {} && loader.settled == map[]
    ensures loader.keys == CustomersOf(orders) && |loader.queue| == |orders|
    ensures TicksWithLoad(loader.trace) == 0 && (LoadedSince(loader.trace) <==> orders != [])
  {
    for i := 0 to |orders|
      invariant loader.Valid() && loader.inFlight == {} && loader.settled == map[]
      invariant loader.keys == CustomersOf(orders[..i]) && |loader.queue| == i
      invariant TicksWithLoad(loader.trace) == 0 && (LoadedSince(loader.trace) <==> i > 0)
    {
      assert orders[..i + 1][..i] == orders[..i];
      TicksMore(loader.trace, Load(orders[i].customer));
      var promise := loader.AddLoad(orders[i].customer);
    }
    assert orders[..|orders|] == orders;
  }

  /** The final map over the orders, given their customers. */
  method Emails(ghost customers: map<int, string>, orders: seq<Order>, settled: map<nat, Outcome>)
    returns (reply: Reply)
    requires forall i: nat :: i < |orders| ==>
               i in settled && settled[i] == Resolved(Lookup(customers, orders[i].customer))
    ensures reply == Listing(customers, orders)
  {
    var out := [];
    for i := 0 to |orders|
      invariant AllKnown(customers, orders[..i]) && out == Lines(customers, orders[..i])
    {
      var o, email := orders[i], settled[i].email;
      if email.None? {
        TriedUpTo(customers, orders, i);
        return TypeError;
      }
      OneMoreLine(customers, orders, i);
      out := out + [Line(o.id, o.status, email.value)];
    }
    assert orders[..|orders|] == orders;
    return Page(out);
  }

  /** For N orders whose customers all exist the three variants give one list, at N + 1, 2 and N + 1 queries. */
  method Compare(db: CountingClient, limit: nat) returns (lists: seq<Reply>, queries: seq<nat>)
    modifies db
    ensures var page := FirstOrders(db.orders, limit);
            && lists == [Listing(db.customers, page), Listing(db.customers, page), Listing(db.customers, page)]
            && (page != [] && AllKnown(db.customers, page) ==> queries == [|page| + 1, 2, |page| + 1])
            && (page == [] ==> queries == [1, 1, 1])
  {
    db.Begin();
    var r1 := ResolverPerField(db, limit);
    var q1, _ := db.End();
    db.Begin();
    var r2 := DataloaderSameTick(db, limit);
    var q2, _ := db.End();
    db.Begin();
    var r3 := DataloaderAcrossTicks(db, limit);
    var q3, _ := db.End();
    if AllKnown(db.customers, FirstOrders(db.orders, limit)) {
      TriedAll(db.customers, FirstOrders(db.orders, limit));
    }
    return [r1, r2, r3], [q1, q2, q3];
  }
}
