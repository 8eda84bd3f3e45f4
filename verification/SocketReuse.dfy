/**
 A client that gives up on a response and goes on using the same socket, against one that closes it. It waits for its
 socket to be readable until its deadline and then takes everything that has arrived, up to the size of its
 buffer; so what one read holds may be several responses, one, or a part of one.

 Positions count bytes in the stream of all responses, in the order asked.
 */
module SocketReuse {
  import opened Common
  import F = Framing

  const READ_LIMIT: nat := 4096

  function Bytes(responses: seq<string>): string {
    if responses == [] then "" else Bytes(responses[..|responses| - 1]) + responses[|responses| - 1]
  }

  /** Where the n-th response begins: the bytes of those before it. */
  function Sent(responses: seq<string>, n: nat): (b: nat)
    requires n <= |responses|
  {
    if n == 0 then 0 else Sent(responses, n - 1) + |responses[n - 1]|
  }

  lemma {:induction false} BytesUpTo(responses: seq<string>, n: nat)
    requires n <= |responses|
    ensures |Bytes(responses)| == Sent(responses, |responses|) >= Sent(responses, n)
    ensures Bytes(responses)[..Sent(responses, n)] == Bytes(responses[..n])
    decreases |responses|
  {
    if n == |responses| {
      assert responses[..n] == responses;
      if n > 0 {
        BytesUpTo(responses[..n - 1], n - 1);
        SentPrefix(responses, n - 1, n - 1);
      }
    } else {
      var fewer := responses[..|responses| - 1];
      BytesUpTo(fewer, n);
      SentPrefix(responses, |responses| - 1, n);
      SentPrefix(responses, |responses| - 1, |responses| - 1);
      assert fewer[..n] == responses[..n];
    }
  }

  lemma {:induction false} SentPrefix(responses: seq<string>, m: nat, n: nat)
    requires n <= m <= |responses|
    ensures Sent(responses[..m], n) == Sent(responses, n)
  {
    if n > 0 {
      SentPrefix(responses, m, n - 1);
    }
  }

  lemma {:induction false} SentGrows(responses: seq<string>, m: nat, n: nat)
    requires m <= n <= |responses|
    ensures Sent(responses, m) <= Sent(responses, n)
    ensures m < n && (forall i :: 0 <= i < |responses| ==> responses[i] != "") ==>
      Sent(responses, m) < Sent(responses, n)
  {
    if m < n {
      SentGrows(responses, m, n - 1);
    }
  }

  /** The bytes of the n-th response are where it begins. */
  lemma ResponseAt(responses: seq<string>, n: nat)
    requires n < |responses|
    ensures Sent(responses, n) <= Sent(responses, n + 1) <= |Bytes(responses)|
    ensures Bytes(responses)[Sent(responses, n)..Sent(responses, n + 1)] == responses[n]
  {
    BytesUpTo(responses, n);
    BytesUpTo(responses, n + 1);
    BytesUpTo(responses[..n + 1], n);
    SentPrefix(responses, n + 1, n);
    assert responses[..n + 1][..n] == responses[..n];
    var b := Sent(responses, n);
    var upTo := Bytes(responses)[..Sent(responses, n + 1)];
    assert upTo == Bytes(responses[..n + 1]) == Bytes(responses[..n]) + responses[n];
    assert Bytes(responses)[b..Sent(responses, n + 1)] == upTo[b..];
  }

  // ---------------------------------------------------------------- the client

  /**
   One conversation: the responses in the order asked, how many of the bytes still on their way arrive in time for
   each wait, and whether a timeout closes the socket, so that the next request opens another.
   */
  datatype Talk = Talk(responses: seq<string>, arriving: seq<nat>, close: bool)

  predicate TalkOk(t: Talk) {
    |t.arriving| == |t.responses| && forall i :: 0 <= i < |t.responses| ==> t.responses[i] != ""
  }

  /** How far the stream has come to the client's socket, and how far the client has read. */
  datatype Position = Position(delivered: nat, consumed: nat)

  /** How much has come by the deadline of the i-th wait; nothing does before it is asked for. */
  function Due(t: Talk, i: nat, p: Position): nat
    requires TalkOk(t) && i < |t.responses|
  {
    Min(p.delivered + t.arriving[i], Sent(t.responses, i) + |t.responses[i]|)
  }

  /** One wait. A closed socket drops all that it still owed. */
  function AfterWait(t: Talk, i: nat, p: Position): Position
    requires TalkOk(t) && i < |t.responses|
  {
    var d, end := Due(t, i, p), Sent(t.responses, i) + |t.responses[i]|;
    if d > p.consumed then Position(d, Min(d, p.consumed + READ_LIMIT))
    else if t.close then Position(end, end)
    else Position(d, p.consumed)
  }

  /** Where the stream stands before the n-th wait. */
  function Before(t: Talk, n: nat): (p: Position)
    requires TalkOk(t) && n <= |t.responses|
    ensures p.consumed <= p.delivered <= Sent(t.responses, n)
  {
    if n == 0 then Position(0, 0) else AfterWait(t, n - 1, Before(t, n - 1))
  }

  predicate TimedOut(t: Talk, i: nat)
    requires TalkOk(t) && i < |t.responses|
  {
    Due(t, i, Before(t, i)) == Before(t, i).consumed
  }

  /** What the i-th wait reads: nothing, or the stretch of the stream up to where the next wait will begin. */
  function Read(t: Talk, i: nat): Option<string>
    requires TalkOk(t) && i < |t.responses|
  {
    if TimedOut(t, i) then None
    else
      ReadInside(t, i);
      Some(Bytes(t.responses)[Before(t, i).consumed..Before(t, i + 1).consumed])
  }

  lemma ReadInside(t: Talk, i: nat)
    requires TalkOk(t) && i < |t.responses|
    ensures Before(t, i).consumed <= Before(t, i + 1).consumed <= Sent(t.responses, i + 1) <= |Bytes(t.responses)|
  {
    BytesUpTo(t.responses, i + 1);
  }

  lemma StreamGrows(responses: seq<string>, n: nat, a: nat)
    requires n < |responses| && a <= Sent(responses, n)
    ensures Sent(responses, n) <= Sent(responses, n + 1) <= |Bytes(responses)|
    ensures Bytes(responses)[a..Sent(responses, n + 1)] == Bytes(responses)[a..Sent(responses, n)] + responses[n]
  {
    ResponseAt(responses, n);
  }

  lemma Cut(s: string, a: nat, b: nat, c: nat)
    requires a <= b <= c <= |s|
    ensures s[a..c][..b - a] == s[a..b] && s[a..c][b - a..] == s[b..c] && s[a..b] + s[b..c] == s[a..c]
  {
  }

  /** What is on its way and what is in the socket, as stretches of the stream. */
  ghost predicate Buffers(t: Talk, i: nat, inFlight: string, arrived: string)
    requires TalkOk(t) && i <= |t.responses|
  {
    var stream, p := Bytes(t.responses), Before(t, i);
    && Sent(t.responses, i) <= |stream|
    && arrived == stream[p.consumed..p.delivered] && inFlight == stream[p.delivered..Sent(t.responses, i)]
  }

  lemma BytesArrive(t: Talk, i: nat, inFlight: string, arrived: string)
    requires TalkOk(t) && i < |t.responses| && Buffers(t, i, inFlight, arrived)
    ensures var stream, p := Bytes(t.responses), Before(t, i);
            var d, end := Due(t, i, p), Sent(t.responses, i + 1);
            var more := inFlight + t.responses[i];
            var n := Min(t.arriving[i], |more|);
            && p.consumed <= d <= end <= |stream|
            && arrived + more[..n] == stream[p.consumed..d] && more[n..] == stream[d..end]
  {
    var stream, p, d, end := Bytes(t.responses), Before(t, i), Due(t, i, Before(t, i)), Sent(t.responses, i + 1);
    StreamGrows(t.responses, i, p.delivered);
    Cut(stream, p.delivered, d, end);
    Cut(stream, p.consumed, p.delivered, d);
  }

  /** The i-th request is sent, some bytes arrive, and the wait takes what is there or gives up. */
  method WaitOnce(t: Talk, i: nat, inFlight0: string, arrived0: string)
    returns (got: Option<string>, inFlight: string, arrived: string)
    requires TalkOk(t) && i < |t.responses| && Buffers(t, i, inFlight0, arrived0)
    ensures got == Read(t, i) && Buffers(t, i + 1, inFlight, arrived)
  {
    BytesArrive(t, i, inFlight0, arrived0);
    inFlight := inFlight0 + t.responses[i];
    var n := Min(t.arriving[i], |inFlight|);
    arrived, inFlight := arrived0 + inFlight[..n], inFlight[n..];
    if arrived == "" {
      return None, if t.close then "" else inFlight, "";
    }
    var taken := Min(|arrived|, READ_LIMIT);
    ReadInside(t, i);
    Cut(Bytes(t.responses), Before(t, i).consumed, Before(t, i).consumed + taken, Due(t, i, Before(t, i)));
    return Some(arrived[..taken]), inFlight, arrived[taken..];
  }

  /** The client's loop over its requests. */
  method Converse(t: Talk) returns (got: seq<Option<string>>)
    requires TalkOk(t)
    ensures |got| == |t.responses| && forall i: nat :: i < |got| ==> got[i] == Read(t, i)
  {
    var inFlight, arrived := "", "";
    got := [];
    for i := 0 to |t.responses|
      invariant |got| == i && Buffers(t, i, inFlight, arrived)
      invariant forall j: nat :: j < i ==> got[j] == Read(t, j)
    {
      var one;
      one, inFlight, arrived := WaitOnce(t, i, inFlight, arrived);
      got := got + [one];
    }
  }

  // ---------------------------------------------------------------- in step

  /** Nothing sent before request i is still unread when it is sent. */
  ghost predicate InStep(t: Talk, i: nat)
    requires TalkOk(t) && i <= |t.responses|
  {
    Before(t, i).consumed == Sent(t.responses, i)
  }

  /** The i-th wait reads its own response, all of it and nothing else. */
  ghost predicate ReadsOwn(t: Talk, i: nat)
    requires TalkOk(t) && i < |t.responses|
  {
    && Before(t, i).consumed == Sent(t.responses, i) && Before(t, i + 1).consumed == Sent(t.responses, i + 1)
    && !TimedOut(t, i)
  }

  /** The whole of the response arrives by the deadline and fits the buffer. */
  ghost predicate ArrivesWhole(t: Talk, i: nat)
    requires TalkOk(t) && i < |t.responses|
  {
    |t.responses[i]| <= t.arriving[i] && |t.responses[i]| <= READ_LIMIT
  }

  /**
   A wait reads exactly its own response precisely when nothing earlier is outstanding at its send and its whole
   response comes in one read.
   */
  lemma ReadsOwnExactly(t: Talk, i: nat)
    requires TalkOk(t) && i < |t.responses|
    ensures ReadsOwn(t, i) <==> InStep(t, i) && ArrivesWhole(t, i)
    ensures ReadsOwn(t, i) ==> Read(t, i) == Some(t.responses[i])
  {
    ResponseAt(t.responses, i);
  }

  /** After a wait everything is read exactly when it drained all that was owed, or its timeout closed the socket. */
  lemma InStepAfter(t: Talk, i: nat)
    requires TalkOk(t) && i < |t.responses|
    ensures InStep(t, i + 1) <==>
            if TimedOut(t, i) then t.close
            else
              var owed := Sent(t.responses, i + 1) - Before(t, i).consumed;
              owed <= READ_LIMIT && Before(t, i).delivered + t.arriving[i] >= Sent(t.responses, i + 1)
  {
  }

  /**
   A conversation stays in step to the n-th request exactly when every wait so far got its whole response or, where
   timeouts close the socket, nothing at all. Then every body read is that of its own request.
   */
  lemma {:induction false} StaysInStepExactly(t: Talk, n: nat)
    requires TalkOk(t) && n <= |t.responses|
    ensures (forall i: nat :: i <= n ==> InStep(t, i)) <==>
            forall i: nat :: i < n ==> ArrivesWhole(t, i) || (t.close && t.arriving[i] == 0)
  {
    if n > 0 {
      StaysInStepExactly(t, n - 1);
      assert InStep(t, n - 1) ==>
             (InStep(t, n) <==> ArrivesWhole(t, n - 1) || (t.close && t.arriving[n - 1] == 0));
      assert (forall i: nat :: i <= n ==> InStep(t, i)) <==>
             (forall i: nat :: i <= n - 1 ==> InStep(t, i)) && InStep(t, n);
    }
  }

  // ---------------------------------------------------------------- behind

  /** The responses are those to requests for these paths. */
  ghost predicate Answers(t: Talk, paths: seq<string>) {
    |paths| == |t.responses| && forall i :: 0 <= i < |paths| ==> F.Carries(t.responses[i], paths[i])
  }

  /** They are what the server writes for these paths. */
  ghost predicate FromServer(t: Talk, paths: seq<string>) {
    |paths| == |t.responses| && forall i :: 0 <= i < |paths| ==> t.responses[i] == F.Response(paths[i])
  }

  lemma ServerAnswers(t: Talk, paths: seq<string>)
    requires FromServer(t, paths) && |t.arriving| == |t.responses|
    requires forall i :: 0 <= i < |paths| ==> 0 < |paths[i]| <= 90
    ensures TalkOk(t) && Answers(t, paths)
    ensures forall i :: 0 <= i < |t.responses| ==> |t.responses[i]| <= READ_LIMIT
  {
    forall i | 0 <= i < |paths|
      ensures t.responses[i] != "" && F.Carries(t.responses[i], paths[i]) && |t.responses[i]| <= READ_LIMIT
    {
      F.ResponseLength(paths[i]);
      F.ResponseCarries(paths[i]);
    }
  }

  /**
   A read that begins where response r does, and has all of it, gives the body of request r, the oldest outstanding,
   followed by whatever else was there.
   */
  lemma LeadingIsOldest(t: Talk, paths: seq<string>, i: nat, r: nat)
    requires TalkOk(t) && Answers(t, paths) && i < |paths| && r <= i && !TimedOut(t, i)
    requires Before(t, i).consumed == Sent(t.responses, r) && Before(t, i + 1).consumed >= Sent(t.responses, r + 1)
    ensures Sent(t.responses, r + 1) <= Before(t, i + 1).consumed <= |Bytes(t.responses)|
    ensures F.BodyOf(Read(t, i).value) ==
            F.Body(paths[r]) + Bytes(t.responses)[Sent(t.responses, r + 1)..Before(t, i + 1).consumed]
  {
    ReadInside(t, i);
    ResponseAt(t.responses, r);
    var rest := Bytes(t.responses)[Sent(t.responses, r + 1)..Before(t, i + 1).consumed];
    Cut(Bytes(t.responses), Sent(t.responses, r), Sent(t.responses, r + 1), Before(t, i + 1).consumed);
    F.BodyThenMore(t.responses[r], rest);
  }

  /** The i-th wait times out, or reads one whole response and nothing else. */
  ghost predicate OneOrNothing(t: Talk, i: nat)
    requires TalkOk(t) && i < |t.responses|
  {
    TimedOut(t, i) || exists r :: ReadsWhole(t, i, r)
  }

  ghost predicate ReadsWhole(t: Talk, i: nat, r: nat)
    requires TalkOk(t) && i < |t.responses|
  {
    r < |t.responses| && !TimedOut(t, i) &&
    Before(t, i).consumed == Sent(t.responses, r) && Before(t, i + 1).consumed == Sent(t.responses, r + 1)
  }

  lemma WholeRead(t: Talk, paths: seq<string>, i: nat, r: nat)
    requires TalkOk(t) && Answers(t, paths) && i < |paths| && ReadsWhole(t, i, r)
    ensures Read(t, i) == Some(t.responses[r]) && F.BodyOf(Read(t, i).value) == F.Body(paths[r])
  {
    ReadIsResponse(t, i, r);
  }

  /** How many of the first i waits were given up. */
  function Abandoned(t: Talk, i: nat): (k: nat)
    requires TalkOk(t) && i <= |t.responses|
    ensures k <= i
  {
    if i == 0 then 0 else Abandoned(t, i - 1) + if TimedOut(t, i - 1) then 1 else 0
  }

  /** On a kept socket where each wait reads one response or none, the next is as far behind as waits were abandoned. */
  lemma {:induction false} BehindByAbandoned(t: Talk, i: nat)
    requires TalkOk(t) && !t.close && i <= |t.responses|
    requires forall j: nat :: j < i ==> OneOrNothing(t, j)
    ensures BehindAt(t, i)
  {
    if i > 0 {
      BehindByAbandoned(t, i - 1);
      assert OneOrNothing(t, i - 1);
      BehindStep(t, i - 1);
    }
  }

  /** Request i finds unread just the responses to as many requests before it as waits were abandoned. */
  ghost predicate BehindAt(t: Talk, i: nat)
    requires TalkOk(t) && i <= |t.responses|
  {
    Before(t, i).consumed == Sent(t.responses, i - Abandoned(t, i))
  }

  lemma BehindStep(t: Talk, i: nat)
    requires TalkOk(t) && !t.close && i < |t.responses| && BehindAt(t, i) && OneOrNothing(t, i)
    ensures BehindAt(t, i + 1)
  {
    if !TimedOut(t, i) {
      ReadsOldest(t, i, i - Abandoned(t, i));
    }
  }

  /** A wait that reads one response reads the oldest that is unread. */
  lemma ReadsOldest(t: Talk, i: nat, n: nat)
    requires TalkOk(t) && n <= i < |t.responses| && Before(t, i).consumed == Sent(t.responses, n)
    requires OneOrNothing(t, i) && !TimedOut(t, i)
    ensures ReadsWhole(t, i, n)
  {
    var r :| ReadsWhole(t, i, r);
    SentOnce(t.responses, r, n);
  }

  lemma SentOnce(responses: seq<string>, m: nat, n: nat)
    requires m <= |responses| && n <= |responses| && Sent(responses, m) == Sent(responses, n)
    requires forall i :: 0 <= i < |responses| ==> responses[i] != ""
    ensures m == n
  {
    if m < n {
      SentGrows(responses, m, n);
    } else if n < m {
      SentGrows(responses, n, m);
    }
  }

  /** So it reads exactly the response to the request k earlier, k being the waits abandoned so far. */
  lemma {:induction false} KeptSocketStaysBehind(t: Talk, i: nat)
    requires TalkOk(t) && !t.close && i < |t.responses|
    requires forall j: nat :: j <= i ==> OneOrNothing(t, j)
    requires !TimedOut(t, i)
    ensures var r := i - Abandoned(t, i);
            ReadsWhole(t, i, r) && Read(t, i) == Some(t.responses[r])
  {
    var r := i - Abandoned(t, i);
    assert ReadsWhole(t, i, r) by {
      BehindByAbandoned(t, i);
      assert OneOrNothing(t, i);
      ReadsOldest(t, i, r);
    }
    ReadIsResponse(t, i, r);
  }

  lemma ReadIsResponse(t: Talk, i: nat, r: nat)
    requires TalkOk(t) && i < |t.responses| && ReadsWhole(t, i, r)
    ensures Read(t, i) == Some(t.responses[r])
  {
    ResponseAt(t.responses, r);
  }

  /** What the i-th wait reads is the body of request r: its own body exactly when the two paths are the same. */
  ghost predicate ReadsBodyOf(t: Talk, paths: seq<string>, i: nat, r: nat)
    requires TalkOk(t) && i < |t.responses| == |paths| && r < |paths|
  {
    Read(t, i).Some? && F.BodyOf(Read(t, i).value) == F.Body(paths[r]) &&
    (F.BodyOf(Read(t, i).value) == F.Body(paths[i]) <==> paths[r] == paths[i])
  }

  /** A wait that reads response r whole is given the body of request r. */
  lemma WholeReadBody(t: Talk, paths: seq<string>, i: nat, r: nat)
    requires TalkOk(t) && Answers(t, paths) && i < |paths| && ReadsWhole(t, i, r)
    ensures ReadsBodyOf(t, paths, i, r)
  {
    WholeRead(t, paths, i, r);
    SameBody(paths[r], paths[i]);
  }

  lemma SameBody(p: string, q: string)
    ensures F.Body(p) == F.Body(q) <==> p == q
  {
    assert F.Body(p)[5..] == p && F.Body(q)[5..] == q;
  }

  /**
   Where each wait gets its whole response or its timeout closes the socket, every body read is that of its request.
   */
  lemma ClosedSocketMatches(t: Talk, paths: seq<string>, i: nat)
    requires TalkOk(t) && t.close && Answers(t, paths) && i < |paths|
    requires forall j: nat :: j <= i ==> ArrivesWhole(t, j) || t.arriving[j] == 0
    ensures InStep(t, i) && (TimedOut(t, i) <==> t.arriving[i] == 0)
    ensures !TimedOut(t, i) ==> F.BodyOf(Read(t, i).value) == F.Body(paths[i])
  {
    StaysInStepExactly(t, i);
    assert InStep(t, i);
    assert t.responses[i] != "";
    if !TimedOut(t, i) {
      ReadsOwnExactly(t, i);
      WholeRead(t, paths, i, i);
    }
  }

  /**
   The experiment, for any two paths in place of /slow and /marker: the first request is abandoned, its answer comes
   late and whole, and is read as the answer to the second.
   */
  lemma MarkerReadsSlow(t: Talk, paths: seq<string>)
    requires TalkOk(t) && Answers(t, paths) && |paths| == 2 && !t.close
    requires t.arriving == [0, |t.responses[0]|] && |t.responses[0]| <= READ_LIMIT
    ensures Read(t, 0) == None && Read(t, 1).Some? && F.BodyOf(Read(t, 1).value) == F.Body(paths[0])
  {
    assert Before(t, 0) == Position(0, 0) && Before(t, 1) == Position(0, 0);
    assert Sent(t.responses, 1) == |t.responses[0]| && t.responses[0] != "";
    assert Before(t, 2).consumed == |t.responses[0]|;
    WholeRead(t, paths, 1, 0);
  }

  /** Had the timeout closed the socket, the next one would have been answered right. */
  lemma MarkerReadsMarker(t: Talk, paths: seq<string>)
    requires TalkOk(t) && Answers(t, paths) && |paths| == 2 && t.close
    requires t.arriving == [0, |t.responses[1]|] && |t.responses[1]| <= READ_LIMIT
    ensures Read(t, 0) == None && Read(t, 1).Some? && F.BodyOf(Read(t, 1).value) == F.Body(paths[1])
  {
    assert t.arriving[0] == 0 && ArrivesWhole(t, 1);
    ClosedSocketMatches(t, paths, 0);
    ClosedSocketMatches(t, paths, 1);
  }

  /**
   With the server's own responses to two paths of ordinary length: a kept socket answers the second request with what
   the first one, abandoned, was to be answered, and one that the timeout closed answers it right.
   */
  lemma KeptOrClosed(t: Talk, paths: seq<string>)
    requires FromServer(t, paths) && |paths| == 2 && forall i :: 0 <= i < 2 ==> 0 < |paths[i]| <= 90
    requires t.arriving == [0, |t.responses[if t.close then 1 else 0]|]
    ensures TalkOk(t) && Read(t, 0) == None && Read(t, 1).Some?
    ensures F.BodyOf(Read(t, 1).value) == F.Body(paths[if t.close then 1 else 0])
  {
    ServerAnswers(t, paths);
    if t.close {
      MarkerReadsMarker(t, paths);
    } else {
      MarkerReadsSlow(t, paths);
    }
  }

  /**
   It need not stay behind for ever: when the late response and the next are there together, one read takes both, as a
   single body, and the wait after that reads its own.
   */
  lemma OneReadTakesBoth(t: Talk, paths: seq<string>)
    requires TalkOk(t) && Answers(t, paths) && |paths| == 3 && !t.close
    requires t.arriving == [0, |t.responses[0]| + |t.responses[1]|, |t.responses[2]|]
    requires |t.responses[0]| + |t.responses[1]| <= READ_LIMIT && |t.responses[2]| <= READ_LIMIT
    ensures Read(t, 0) == None && Read(t, 1).Some? && Read(t, 2) == Some(t.responses[2])
    ensures F.BodyOf(Read(t, 1).value) == F.Body(paths[0]) + t.responses[1]
  {
    var r := t.responses;
    assert r[0] != "" && r[1] != "" && r[2] != "";
    assert Sent(r, 1) == |r[0]| && Sent(r, 2) == |r[0]| + |r[1]|;
    assert Before(t, 1) == Position(0, 0);
    assert Before(t, 2) == Position(Sent(r, 2), Sent(r, 2));
    LeadingIsOldest(t, paths, 1, 0);
    ResponseAt(r, 1);
    ReadsOwnExactly(t, 2);
  }
}
