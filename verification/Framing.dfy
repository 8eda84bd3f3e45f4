/**
 The keep-alive server of the deadline experiment: it cuts a byte stream into requests at each blank
 line, whatever the sizes of its reads, and echoes each request's path.
 */
module Framing {
  import opened Common

  const DELIMITER: string := "\r\n\r\n"
  const CRLF: string := "\r\n"

  // ---------------------------------------------------------------- searching

  predicate Occurs(s: string, j: nat) {
    j + 4 <= |s| && s[j] == '\r' && s[j + 1] == '\n' && s[j + 2] == '\r' && s[j + 3] == '\n'
  }

  /** The first blank line at or after a position. */
  function Find(s: string, from: nat): (r: Option<nat>)
    ensures r.Some? ==> from <= r.value && Occurs(s, r.value) && forall j: nat :: from <= j < r.value ==> !Occurs(s, j)
    ensures r.None? ==> forall j: nat :: from <= j ==> !Occurs(s, j)
    decreases |s| - from
  {
    if from >= |s| then None else if Occurs(s, from) then Some(from) else Find(s, from + 1)
  }

  /** The first occurrence of a character at or after a position. */
  function FindChar(s: string, c: char, from: nat): (r: Option<nat>)
    ensures r.Some? ==> from <= r.value < |s| && s[r.value] == c && forall j :: from <= j < r.value ==> s[j] != c
    ensures r.None? ==> forall j :: from <= j < |s| ==> s[j] != c
    decreases |s| - from
  {
    if from >= |s| then None else if s[from] == c then Some(from) else FindChar(s, c, from + 1)
  }

  lemma FindIs(s: string, e: nat)
    requires Occurs(s, e) && forall j: nat :: j < e ==> !Occurs(s, j)
    ensures Find(s, 0) == Some(e)
  {
  }

  // ---------------------------------------------------------------- one request

  /** The path between the first two spaces; "/" when there are not two. */
  function PathOf(head: string): string {
    match FindChar(head, ' ', 0)
    case None => "/"
    case Some(sp1) =>
      match FindChar(head, ' ', sp1 + 1)
      case None => "/"
      case Some(sp2) => head[sp1 + 1..sp2]
  }

  predicate IsSlow(path: string) { "/slow" <= path }

  function Digit(d: nat): char
    requires d < 10
  {
    "0123456789"[d]
  }

  function Decimal(n: nat): (s: string)
    ensures |s| > 0 && forall i :: 0 <= i < |s| ==> '0' <= s[i] <= '9'
  {
    if n < 10 then [Digit(n)] else Decimal(n / 10) + [Digit(n % 10)]
  }

  function Body(path: string): string { "path=" + path }

  function Response(path: string): string {
    var length := "Content-Length: " + Decimal(|Body(path)|);
    "HTTP/1.1 200 OK" + CRLF + length + CRLF + "Connection: keep-alive" + DELIMITER + Body(path)
  }

  /** What the server writes for a request, and whether it held the request first. */
  datatype Handled = Handled(response: string, slow: bool)

  function Handle(head: string): Handled {
    Handled(Response(PathOf(head)), IsSlow(PathOf(head)))
  }

  // ---------------------------------------------------------------- the stream

  /** The heads of the requests in a stream: what stands before each blank line. */
  function Frames(s: string): seq<string>
    decreases |s|
  {
    match Find(s, 0)
    case None => []
    case Some(end) => [s[..end]] + Frames(s[end + 4..])
  }

  /** What reading to the end of the stream gives: an empty read is the end. */
  function Stream(chunks: seq<string>): string {
    if chunks == [] || chunks[0] == "" then "" else chunks[0] + Stream(chunks[1..])
  }

  function Responses(handler: string -> Handled, heads: seq<string>): (rs: seq<string>)
    ensures |rs| == |heads|
  {
    if heads == [] then []
    else Responses(handler, heads[..|heads| - 1]) + [handler(heads[|heads| - 1]).response]
  }

  function SlowCount(handler: string -> Handled, heads: seq<string>): nat {
    if heads == [] then 0
    else SlowCount(handler, heads[..|heads| - 1]) + if handler(heads[|heads| - 1]).slow then 1 else 0
  }

  /** A blank line once found stays the first one, whatever is read after it. */
  lemma FirstFrame(buf: string, more: string)
    requires Find(buf, 0).Some?
    ensures var end := Find(buf, 0).value;
            Frames(buf + more) == [buf[..end]] + Frames(buf[end + 4..] + more)
  {
    var end := Find(buf, 0).value;
    forall j: nat | j < end ensures !Occurs(buf + more, j) {
      assert !Occurs(buf, j);
    }
    FindIs(buf + more, end);
    assert (buf + more)[..end] == buf[..end];
    assert (buf + more)[end + 4..] == buf[end + 4..] + more;
  }

  /** Taking the next head from those still to come. */
  lemma NextHead(handler: string -> Handled, heads: seq<string>, n: nat, head: string, rest: seq<string>)
    requires n <= |heads| && heads[n..] == [head] + rest
    ensures n < |heads| && heads[n] == head && heads[n + 1..] == rest
    ensures Responses(handler, heads[..n + 1]) == Responses(handler, heads[..n]) + [handler(head).response]
    ensures SlowCount(handler, heads[..n + 1]) == SlowCount(handler, heads[..n]) + if handler(head).slow then 1 else 0
  {
    assert heads[n] == heads[n..][0] == head;
    assert heads[n + 1..] == heads[n..][1..];
    assert heads[..n + 1][..n] == heads[..n];
  }

  /** What has been answered and counted once n heads are served. */
  ghost predicate Served(handler: string -> Handled, heads: seq<string>, n: nat, responses: seq<string>, slow: nat)
    requires n <= |heads|
  {
    responses == Responses(handler, heads[..n]) && |responses| == n && slow == SlowCount(handler, heads[..n])
  }

  /** What a connection of which the first `writable` writes succeed must have done in the end. */
  ghost predicate ServedAll(handler: string -> Handled, heads: seq<string>, writable: nat,
                            responses: seq<string>, slow: nat)
  {
    && responses == Responses(handler, heads[..Min(|heads|, writable)])
    && slow == SlowCount(handler, heads[..Min(|heads|, writable + 1)])
  }

  lemma NoneLeft(handler: string -> Handled, heads: seq<string>, n: nat, writable: nat,
                 responses: seq<string>, slow: nat)
    requires n <= |heads| && n <= writable && heads[n..] == [] && Served(handler, heads, n, responses, slow)
    ensures ServedAll(handler, heads, writable, responses, slow)
  {
    assert |heads| - n == |heads[n..]| == 0;
    assert Min(|heads|, writable) == n && Min(|heads|, writable + 1) == n;
  }

  /** One more head is served: its answer is written, or the connection is over. */
  lemma OneServed(handler: string -> Handled, heads: seq<string>, n: nat, head: string, rest: seq<string>,
                  writable: nat, responses: seq<string>, slow: nat)
    requires n <= |heads| && n <= writable && heads[n..] == [head] + rest
    requires Served(handler, heads, n, responses, slow)
    ensures n < |heads| && heads[n + 1..] == rest
    ensures var more := slow + if handler(head).slow then 1 else 0;
            && (n < writable ==> Served(handler, heads, n + 1, responses + [handler(head).response], more))
            && (n == writable ==> ServedAll(handler, heads, writable, responses, more))
  {
    NextHead(handler, heads, n, head, rest);
  }

  lemma NothingLeft(buf: string, rest: seq<string>)
    requires Find(buf, 0).None? && (rest == [] || rest[0] == "")
    ensures Frames(buf + Stream(rest)) == []
  {
    assert buf + "" == buf;
  }

  /** Reads until there is a blank line in the buffer, and takes what stands before it. */
  method ReadHead(buf0: string, chunks: seq<string>, i0: nat) returns (head: Option<string>, buf: string, i: nat)
    requires i0 <= |chunks|
    ensures i0 <= i <= |chunks|
    ensures Frames(buf0 + Stream(chunks[i0..])) ==
            if head.None? then [] else [head.value] + Frames(buf + Stream(chunks[i..]))
  {
    buf, i := buf0, i0;
    while true
      invariant i0 <= i <= |chunks| && (i == i0 ==> buf == buf0)
      invariant buf + Stream(chunks[i..]) == buf0 + Stream(chunks[i0..])
      decreases |chunks| - i
    {
      var end := Find(buf, 0);
      if end.Some? {
        FirstFrame(buf, Stream(chunks[i..]));
        return Some(buf[..end.value]), buf[end.value + 4..], i;
      }
      if i == |chunks| || chunks[i] == "" {
        NothingLeft(buf, chunks[i..]);
        return None, buf, i;
      }
      assert chunks[i..][1..] == chunks[i + 1..];
      buf, i := buf + chunks[i], i + 1;
    }
  }

  /**
   One connection. The reads return these chunks and the first `writable` writes succeed. The answers are those
   of the whole stream: where the reads fell does not show. A request whose answer cannot be written was
   served all the same.
   */
  method ServeConn(chunks: seq<string>, writable: nat, handler: string -> Handled)
    returns (responses: seq<string>, started: nat, finished: nat)
    ensures var heads := Frames(Stream(chunks));
            && responses == Responses(handler, heads[..Min(|heads|, writable)])
            && started == finished == SlowCount(handler, heads[..Min(|heads|, writable + 1)])
  {
    ghost var heads := Frames(Stream(chunks));
    ghost var n: nat := 0;
    var buf := "";
    var i := 0;
    responses, started, finished := [], 0, 0;
    assert chunks[0..] == chunks && "" + Stream(chunks) == Stream(chunks);
    while true
      invariant 0 <= i <= |chunks| && n <= |heads| && n <= writable
      invariant heads[n..] == Frames(buf + Stream(chunks[i..]))
      invariant Served(handler, heads, n, responses, started) && started == finished
      decreases |heads| - n
    {
      var head;
      head, buf, i := ReadHead(buf, chunks, i);
      if head.None? {
        NoneLeft(handler, heads, n, writable, responses, started);
        return;
      }
      OneServed(handler, heads, n, head.value, Frames(buf + Stream(chunks[i..])), writable, responses, started);
      n := n + 1;
      var handled := handler(head.value);
      if handled.slow {
        started := started + 1;
        finished := finished + 1;
      }
      if |responses| >= writable {
        return;
      }
      responses := responses + [handled.response];
    }
  }

  // ---------------------------------------------------------------- frames are the only way to split

  function Glue(heads: seq<string>): string {
    if heads == [] then "" else heads[0] + DELIMITER + Glue(heads[1..])
  }

  /** What is left after the last blank line. */
  function Remainder(s: string): string
    decreases |s|
  {
    match Find(s, 0)
    case None => s
    case Some(end) => Remainder(s[end + 4..])
  }

  /** The blank line after this head is the first one. */
  predicate Clean(head: string) { Find(head + DELIMITER, 0) == Some(|head|) }

  ghost predicate SplitsAs(s: string, heads: seq<string>, rest: string) {
    && s == Glue(heads) + rest
    && (forall i :: 0 <= i < |heads| ==> Clean(heads[i]))
    && Find(rest, 0).None?
  }

  lemma FirstHead(s: string)
    requires Find(s, 0).Some?
    ensures var end := Find(s, 0).value;
            s == s[..end] + DELIMITER + s[end + 4..] && Clean(s[..end])
  {
    var end := Find(s, 0).value;
    var head := s[..end];
    assert s[end..end + 4] == DELIMITER;
    forall j: nat | j < end ensures !Occurs(head + DELIMITER, j) {
      assert !Occurs(s, j);
    }
    FindIs(head + DELIMITER, end);
  }

  lemma {:induction false} FramesSplit(s: string)
    ensures SplitsAs(s, Frames(s), Remainder(s))
    decreases |s|
  {
    if Find(s, 0).None? {
      assert "" + s == s;
    } else {
      var end := Find(s, 0).value;
      var tail := s[end + 4..];
      FramesSplit(tail);
      FirstHead(s);
      SplitCons(s[..end], tail, Frames(tail), Remainder(tail));
    }
  }

  /** A clean head in front of a split stream is its first head. */
  lemma SplitCons(head: string, tail: string, heads: seq<string>, rest: string)
    requires Clean(head) && SplitsAs(tail, heads, rest)
    ensures SplitsAs(head + DELIMITER + tail, [head] + heads, rest)
  {
    var all := [head] + heads;
    assert all[1..] == heads;
    assert head + DELIMITER + (Glue(heads) + rest) == head + DELIMITER + Glue(heads) + rest;
    assert forall i :: 0 < i < |all| ==> all[i] == heads[i - 1];
  }

  lemma CleanHeadFirst(head: string, more: string)
    requires Clean(head)
    ensures Frames(head + DELIMITER + more) == [head] + Frames(more)
    ensures Remainder(head + DELIMITER + more) == Remainder(more)
  {
    var s := head + DELIMITER + more;
    FirstFrame(head + DELIMITER, more);
    assert (head + DELIMITER)[..|head|] == head && (head + DELIMITER)[|head| + 4..] == "" && "" + more == more;
    forall j: nat | j < |head| ensures !Occurs(s, j) {
      assert !Occurs(head + DELIMITER, j);
    }
    FindIs(s, |head|);
    assert s[|head| + 4..] == more;
  }

  /** The frames and the remainder are the only split of the stream into cleanly ended heads and an unfinished rest. */
  lemma {:induction false} SplitIsUnique(s: string, heads: seq<string>, rest: string)
    ensures SplitsAs(s, heads, rest) <==> heads == Frames(s) && rest == Remainder(s)
    decreases |heads|
  {
    FramesSplit(s);
    if SplitsAs(s, heads, rest) {
      if heads == [] {
        assert s == rest;
      } else {
        var more := Glue(heads[1..]) + rest;
        SplitTail(s, heads, rest);
        CleanHeadFirst(heads[0], more);
        SplitIsUnique(more, heads[1..], rest);
        assert heads == [heads[0]] + heads[1..];
      }
    }
  }

  lemma SplitTail(s: string, heads: seq<string>, rest: string)
    requires SplitsAs(s, heads, rest) && heads != []
    ensures var more := Glue(heads[1..]) + rest;
            Clean(heads[0]) && s == heads[0] + DELIMITER + more && SplitsAs(more, heads[1..], rest)
  {
  }

  // ---------------------------------------------------------------- requests and responses

  predicate Plain(c: char) { c != '\r' && c != '\n' }

  /** A header line that cannot take part in a blank line. */
  predicate Line(l: string) {
    l != "" && Plain(l[|l| - 1]) && Find(l, 0).None?
  }

  lemma LastLine(l: string, rest: string)
    requires Line(l)
    ensures Find(l + DELIMITER + rest, 0) == Some(|l|)
  {
    var s := l + DELIMITER + rest;
    forall j: nat | j < |l| ensures !Occurs(s, j) {
      assert !Occurs(l, j);
      assert s[|l| - 1] == l[|l| - 1];
      assert j + 4 <= |l| ==> s[j] == l[j] && s[j + 1] == l[j + 1] && s[j + 2] == l[j + 2] && s[j + 3] == l[j + 3];
    }
    assert s[|l|..|l| + 4] == DELIMITER;
    FindIs(s, |l|);
  }

  lemma {:induction false} LineBefore(l: string, t: string)
    requires Line(l) && t != "" && Plain(t[0]) && Find(t, 0).Some?
    ensures Find(l + CRLF + t, 0) == Some(|l| + 2 + Find(t, 0).value)
  {
    var s, e := l + CRLF + t, Find(t, 0).value;
    forall j: nat | j < |l| + 2 + e ensures !Occurs(s, j) {
      if j < |l| {
        assert !Occurs(l, j);
        assert s[|l| - 1] == l[|l| - 1];
        assert j + 4 <= |l| ==> s[j] == l[j] && s[j + 1] == l[j + 1] && s[j + 2] == l[j + 2] && s[j + 3] == l[j + 3];
      } else if j == |l| {
        assert s[j + 2] == t[0];
      } else if j == |l| + 1 {
        assert s[j] == CRLF[1];
      } else {
        assert !Occurs(t, j - |l| - 2);
      }
    }
    FindIs(s, |l| + 2 + e);
  }

  function BodyOf(response: string): string {
    match Find(response, 0)
    case None => ""
    case Some(end) => response[end + 4..]
  }

  lemma ThreeLines(l1: string, l2: string, l3: string, body: string)
    requires Line(l1) && Line(l2) && Line(l3) && Plain(l2[0]) && Plain(l3[0])
    ensures BodyOf(l1 + CRLF + l2 + CRLF + l3 + DELIMITER + body) == body
  {
    var t3 := l3 + DELIMITER + body;
    var t2 := l2 + CRLF + t3;
    LastLine(l3, body);
    assert t3[0] == l3[0] && t2[0] == l2[0];
    LineBefore(l2, t3);
    LineBefore(l1, t2);
    var response, front := l1 + CRLF + l2 + CRLF + l3 + DELIMITER + body, l1 + CRLF + l2 + CRLF + l3 + DELIMITER;
    assert response == l1 + CRLF + t2;
    assert |front| == Find(response, 0).value + 4 && response == front + body;
  }

  /** The client reads back the body the server wrote, for every path. */
  lemma BodyRoundTrip(path: string)
    ensures BodyOf(Response(path)) == Body(path)
  {
    ThreeLines("HTTP/1.1 200 OK", "Content-Length: " + Decimal(|Body(path)|), "Connection: keep-alive", Body(path));
  }

  /** A response whose body is the one for this path. */
  predicate Carries(response: string, path: string) {
    Find(response, 0).Some? && BodyOf(response) == Body(path)
  }

  /** Status line and headers take less than 80 bytes. */
  lemma ResponseLength(path: string)
    requires |path| <= 90
    ensures |path| <= |Response(path)| <= |path| + 80
  {
    var n := |Body(path)|;
    assert Decimal(n) == if n < 10 then [Digit(n)] else [Digit(n / 10), Digit(n % 10)];
  }

  lemma ResponseCarries(path: string)
    ensures Carries(Response(path), path)
  {
    BodyRoundTrip(path);
  }

  /** When more follows a response in the same bytes, the body takes it in. */
  lemma BodyThenMore(response: string, more: string)
    requires Find(response, 0).Some?
    ensures BodyOf(response + more) == BodyOf(response) + more
  {
    var end := Find(response, 0).value;
    forall j: nat | j < end ensures !Occurs(response + more, j) {
      assert !Occurs(response, j);
    }
    FindIs(response + more, end);
    assert (response + more)[end + 4..] == response[end + 4..] + more;
  }

  function Head(path: string): string { "GET " + path + " HTTP/1.1" + CRLF + "Host: lab" }

  function Request(path: string): string { Head(path) + DELIMITER }

  /** A request ends at its own blank line exactly when its path holds no blank line. */
  lemma {:induction false} HeadIsClean(path: string)
    ensures Clean(Head(path)) <==> Find(path, 0).None?
  {
    var l1, l2 := "GET " + path + " HTTP/1.1", "Host: lab";
    if Find(path, 0).None? {
      forall j: nat ensures !Occurs(l1, j) {
        if 4 <= j {
          assert !Occurs(path, j - 4);
        }
      }
      LastLine(l2, "");
      assert l2 + DELIMITER + "" == l2 + DELIMITER;
      LineBefore(l1, l2 + DELIMITER);
      assert Head(path) + DELIMITER == l1 + CRLF + (l2 + DELIMITER);
    } else {
      var e := Find(path, 0).value;
      assert Head(path) + DELIMITER == "GET " + path + (" HTTP/1.1" + CRLF + "Host: lab" + DELIMITER);
      assert Occurs(Head(path) + DELIMITER, 4 + e);
    }
  }

  /** The server finds the path that was asked for exactly when it holds no space. */
  lemma PathRoundTrip(path: string)
    ensures PathOf(Head(path)) == path <==> ' ' !in path
  {
    var head := Head(path);
    assert head[..4] == "GET ";
    assert head[3] == ' ' && head[0] == 'G' && head[1] == 'E' && head[2] == 'T';
    assert FindChar(head, ' ', 0) == Some(3);
    assert head[4..4 + |path|] == path;
    assert head[4 + |path|] == ' ';
    var sp2 := FindChar(head, ' ', 4);
    assert sp2.Some? && sp2.value <= 4 + |path|;
    if ' ' in path {
      var i :| 0 <= i < |path| && path[i] == ' ';
      assert head[4 + i] == ' ';
    } else {
      forall j | 4 <= j < 4 + |path| ensures head[j] != ' ' {
        assert head[j] == path[j - 4];
      }
    }
  }

  /** What the server takes for the path: all that stands between the first two spaces, or "/". */
  lemma PathOfExactly(before: string, path: string, after: string)
    requires ' ' !in before && ' ' !in path
    ensures PathOf(before) == PathOf(before + " " + path) == "/"
    ensures PathOf(before + " " + path + " " + after) == path
  {
    SpaceAt(before, path);
    SpaceAt(before, path + " " + after);
    var head := before + " " + path + " " + after;
    assert head == before + " " + (path + " " + after);
    var at := |before| + 1;
    assert head[at + |path|] == ' ';
    forall j | at <= j < at + |path| ensures head[j] != ' ' {
      assert head[j] == path[j - at];
    }
    assert FindChar(head, ' ', at) == Some(at + |path|);
    assert head[at..at + |path|] == path;
  }

  lemma SpaceAt(before: string, after: string)
    requires ' ' !in before
    ensures FindChar(before, ' ', 0) == None
    ensures FindChar(before + " " + after, ' ', 0) == Some(|before|)
    ensures ' ' !in after ==> FindChar(before + " " + after, ' ', |before| + 1) == None
  {
    var head := before + " " + after;
    assert head[|before|] == ' ';
    forall j | 0 <= j < |before| ensures head[j] != ' ' {
      assert head[j] == before[j];
    }
    forall j | |before| < j < |head| ensures head[j] == after[j - |before| - 1] {
    }
  }

  function Requests(paths: seq<string>): string {
    if paths == [] then "" else Request(paths[0]) + Requests(paths[1..])
  }

  function Heads(paths: seq<string>): (hs: seq<string>)
    ensures |hs| == |paths|
  {
    if paths == [] then [] else [Head(paths[0])] + Heads(paths[1..])
  }

  ghost predicate Askable(path: string) { ' ' !in path && Find(path, 0).None? }

  lemma {:induction false} RequestsFramed(paths: seq<string>)
    requires forall i :: 0 <= i < |paths| ==> Askable(paths[i])
    ensures Frames(Requests(paths)) == Heads(paths)
  {
    if paths != [] {
      assert Askable(paths[0]);
      HeadIsClean(paths[0]);
      CleanHeadFirst(Head(paths[0]), Requests(paths[1..]));
      RequestsFramed(paths[1..]);
    }
  }

  lemma {:induction false} ResponsesAt(heads: seq<string>, i: nat)
    requires i < |heads|
    ensures Responses(Handle, heads)[i] == Response(PathOf(heads[i]))
  {
    if i < |heads| - 1 {
      ResponsesAt(heads[..|heads| - 1], i);
    }
  }

  lemma {:induction false} HeadsAt(paths: seq<string>, i: nat)
    requires i < |paths|
    ensures Heads(paths)[i] == Head(paths[i])
  {
    if i > 0 {
      HeadsAt(paths[1..], i - 1);
    }
  }

  /** The requests among these paths that the server holds before it answers. */
  function SlowPaths(paths: seq<string>): nat {
    if paths == [] then 0
    else SlowPaths(paths[..|paths| - 1]) + if "/slow" <= paths[|paths| - 1] then 1 else 0
  }

  lemma {:induction false} HeadsSlow(paths: seq<string>, heads: seq<string>)
    requires |heads| == |paths| && forall i :: 0 <= i < |paths| ==> ' ' !in paths[i] && heads[i] == Head(paths[i])
    ensures SlowCount(Handle, heads) == SlowPaths(paths)
  {
    if paths != [] {
      HeadsSlow(paths[..|paths| - 1], heads[..|heads| - 1]);
      PathRoundTrip(paths[|paths| - 1]);
    }
  }

  /** However the bytes are cut, a connection holds exactly the slow ones of the requests it took. */
  lemma EveryChunkingCountsSlow(paths: seq<string>, chunks: seq<string>, taken: nat)
    requires forall j :: 0 <= j < |paths| ==> Askable(paths[j])
    requires Stream(chunks) == Requests(paths) && taken <= |paths|
    ensures var heads := Frames(Stream(chunks));
            |heads| == |paths| && SlowCount(Handle, heads[..taken]) == SlowPaths(paths[..taken])
  {
    RequestsFramed(paths);
    forall i | 0 <= i < taken ensures ' ' !in paths[..taken][i] && Heads(paths)[..taken][i] == Head(paths[..taken][i]) {
      HeadsAt(paths, i);
      assert Askable(paths[i]);
    }
    HeadsSlow(paths[..taken], Heads(paths)[..taken]);
  }

  /** However the bytes of a run of requests are cut into reads, the i-th response body is the i-th path. */
  lemma EveryChunkingAnswersInOrder(paths: seq<string>, chunks: seq<string>, i: nat)
    requires forall j :: 0 <= j < |paths| ==> Askable(paths[j])
    requires Stream(chunks) == Requests(paths) && i < |paths|
    ensures var rs := Responses(Handle, Frames(Stream(chunks)));
            |rs| == |paths| && BodyOf(rs[i]) == Body(paths[i])
  {
    RequestsFramed(paths);
    HeadsAt(paths, i);
    ResponsesAt(Heads(paths), i);
    assert Askable(paths[i]);
    PathRoundTrip(paths[i]);
    BodyRoundTrip(paths[i]);
  }

  /** Read by non-empty read, the stream is all of the bytes in order. */
  lemma {:induction false} StreamIsAll(chunks: seq<string>, more: seq<string>)
    requires forall i :: 0 <= i < |chunks| ==> chunks[i] != ""
    ensures Stream(chunks + more) == Stream(chunks) + Stream(more)
    ensures |Stream(chunks)| >= |chunks|
  {
    if chunks == [] {
      assert chunks + more == more && "" + Stream(more) == Stream(more);
    } else {
      StreamIsAll(chunks[1..], more);
      assert (chunks + more)[1..] == chunks[1..] + more;
      assert chunks[0] + (Stream(chunks[1..]) + Stream(more)) == chunks[0] + Stream(chunks[1..]) + Stream(more);
    }
  }
}
