/**
 The hand-rolled ClientHello parser: it walks from the record header to the extensions (section 4.1.2
 of RFC 8446) and reads supported_groups (section 4.2.7) and key_share (section 4.2.8).

 `ParseClientHello` is the parser, loops and all; `Parse` is what it computes; `Encode` writes a hello the
 way the standard lays it out.
 */
module ClientHello {
  import opened Common

  type Byte = b: int | 0 <= b < 256

  datatype Failure = NotHandshake | NotClientHello | IndexError | StructError

  /** Group ids offered, and (group id, key length) of every key share. */
  datatype Result = Parsed(groups: seq<nat>, shares: seq<(nat, nat)>) | Failed(why: Failure)

  const SUPPORTED_GROUPS := 10
  const KEY_SHARE := 51

  // ---------------------------------------------------------------- bytes

  function U16(s: seq<Byte>, i: nat): (v: nat)
    requires i + 2 <= |s|
    ensures v < 65536
  {
    256 * (s[i] as nat) + s[i + 1] as nat
  }

  function Be16(v: nat): (s: seq<Byte>)
    ensures |s| == 2 && (v < 65536 ==> U16(s, 0) == v)
  {
    [v / 256 % 256, v % 256]
  }

  /** A slice as Python takes it: indices past the end are cut back. */
  function Slice(s: seq<Byte>, from: nat, to: nat): seq<Byte>
    requires from <= to
  {
    s[Min(from, |s|)..Min(to, |s|)]
  }

  // ---------------------------------------------------------------- what the parser computes

  function GroupsFrom(payload: seq<Byte>, offset: nat, stop: nat): Option<seq<nat>>
    decreases stop - offset
  {
    if offset >= stop then Some([])
    else if offset + 2 > |payload| then None
    else
      match GroupsFrom(payload, offset + 2, stop)
      case None => None
      case Some(rest) => Some([U16(payload, offset)] + rest)
  }

  function SharesFrom(payload: seq<Byte>, inner: nat, stop: nat): Option<seq<(nat, nat)>>
    decreases stop - inner
  {
    if inner + 4 > stop then Some([])
    else if inner + 4 > |payload| then None
    else
      var share := (U16(payload, inner), U16(payload, inner + 2));
      match SharesFrom(payload, inner + 4 + share.1, stop)
      case None => None
      case Some(rest) => Some([share] + rest)
  }

  function ReadExtension(kind: nat, payload: seq<Byte>): Result {
    if kind == SUPPORTED_GROUPS && |payload| >= 2 then
      match GroupsFrom(payload, 2, 2 + U16(payload, 0))
      case None => Failed(StructError)
      case Some(groups) => Parsed(groups, [])
    else if kind == KEY_SHARE && |payload| >= 2 then
      match SharesFrom(payload, 2, 2 + U16(payload, 0))
      case None => Failed(StructError)
      case Some(shares) => Parsed([], shares)
    else Parsed([], [])
  }

  /** What was read before, followed by what the rest gives. */
  function Then(groups: seq<nat>, shares: seq<(nat, nat)>, rest: Result): Result {
    if rest.Failed? then rest else Parsed(groups + rest.groups, shares + rest.shares)
  }

  /** An extension as it lies in the bytes. */
  datatype Raw = Raw(kind: nat, data: seq<Byte>)

  /** The extensions between the cursor and the end; none when a header is not all there. */
  function Split(body: seq<Byte>, cursor: nat, end: nat): Option<seq<Raw>>
    decreases end - cursor
  {
    if cursor + 4 > end then Some([])
    else if cursor + 4 > |body| then None
    else
      var next := cursor + 4 + U16(body, cursor + 2);
      match Split(body, next, end)
      case None => None
      case Some(rest) => Some([Raw(U16(body, cursor), Slice(body, cursor + 4, next))] + rest)
  }

  function ReadAll(raws: seq<Raw>): Result {
    if raws == [] then Parsed([], [])
    else
      match ReadExtension(raws[0].kind, raws[0].data)
      case Failed(why) => Failed(why)
      case Parsed(groups, shares) => Then(groups, shares, ReadAll(raws[1..]))
  }

  /** Every failure in the extensions is the same exception, so it does not matter which comes first. */
  function ExtensionsFrom(body: seq<Byte>, cursor: nat, end: nat): Result {
    match Split(body, cursor, end)
    case None => Failed(StructError)
    case Some(raws) => ReadAll(raws)
  }

  /** Where the extensions begin and how long they say they are. */
  datatype Located = Found(at: nat, length: nat) | Missing(why: Failure)

  function ReadTotal(body: seq<Byte>, at: nat): Located {
    if at + 2 > |body| then Missing(StructError) else Found(at + 2, U16(body, at))
  }

  function SkipCompression(body: seq<Byte>, at: nat): Located {
    if at >= |body| then Missing(IndexError) else ReadTotal(body, at + 1 + body[at] as nat)
  }

  function SkipCiphers(body: seq<Byte>, at: nat): Located {
    if at + 2 > |body| then Missing(StructError) else SkipCompression(body, at + 2 + U16(body, at))
  }

  function Locate(body: seq<Byte>): Located {
    if |body| == 0 then Missing(IndexError)
    else if body[0] != 0x01 then Missing(NotClientHello)
    else if |body| <= 38 then Missing(IndexError)
    else SkipCiphers(body, 39 + body[38] as nat)
  }

  function ParseBody(body: seq<Byte>): Result {
    match Locate(body)
    case Missing(why) => Failed(why)
    case Found(at, length) => ExtensionsFrom(body, at, at + length)
  }

  function Parse(record: seq<Byte>): Result {
    if |record| < 5 || record[0] != 0x16 then Failed(NotHandshake) else ParseBody(record[5..])
  }

  // ---------------------------------------------------------------- the parser

  /** Items already read, followed by those still to come. */
  function After<T>(read: seq<T>, rest: Option<seq<T>>): Option<seq<T>> {
    if rest.None? then None else Some(read + rest.value)
  }

  lemma {:induction false} AfterOne<T>(read: seq<T>, x: T, rest: Option<seq<T>>)
    ensures After(read + [x], rest) == After(read, After([x], rest))
  {
    if rest.Some? {
      assert read + ([x] + rest.value) == read + [x] + rest.value;
    }
  }

  method ReadGroups(payload: seq<Byte>) returns (r: Option<seq<nat>>)
    requires |payload| >= 2
    ensures r == GroupsFrom(payload, 2, 2 + U16(payload, 0))
  {
    var stop := 2 + U16(payload, 0);
    var groups: seq<nat> := [];
    var offset: nat := 2;
    ghost var all := GroupsFrom(payload, 2, stop);
    assert all == After([], all) by {
      assert all.Some? ==> [] + all.value == all.value;
    }
    while offset < stop
      invariant all == After(groups, GroupsFrom(payload, offset, stop))
      decreases stop - offset
    {
      if offset + 2 > |payload| {
        return None;
      }
      AfterOne(groups, U16(payload, offset), GroupsFrom(payload, offset + 2, stop));
      groups := groups + [U16(payload, offset)];
      offset := offset + 2;
    }
    assert groups + [] == groups;
    return Some(groups);
  }

  method ReadShares(payload: seq<Byte>) returns (r: Option<seq<(nat, nat)>>)
    requires |payload| >= 2
    ensures r == SharesFrom(payload, 2, 2 + U16(payload, 0))
  {
    var stop := 2 + U16(payload, 0);
    var shares: seq<(nat, nat)> := [];
    var inner: nat := 2;
    ghost var all := SharesFrom(payload, 2, stop);
    assert all == After([], all) by {
      assert all.Some? ==> [] + all.value == all.value;
    }
    while inner + 4 <= stop
      invariant all == After(shares, SharesFrom(payload, inner, stop))
      decreases stop - inner
    {
      if inner + 4 > |payload| {
        return None;
      }
      var group, length := U16(payload, inner), U16(payload, inner + 2);
      AfterOne(shares, (group, length), SharesFrom(payload, inner + 4 + length, stop));
      shares := shares + [(group, length)];
      inner := inner + 4 + length;
    }
    assert shares + [] == shares;
    return Some(shares);
  }

  /** One extension's contribution. */
  method ReadOne(kind: nat, payload: seq<Byte>) returns (r: Result)
    ensures r == ReadExtension(kind, payload)
  {
    if kind == SUPPORTED_GROUPS && |payload| >= 2 {
      var more := ReadGroups(payload);
      return if more.None? then Failed(StructError) else Parsed(more.value, []);
    } else if kind == KEY_SHARE && |payload| >= 2 {
      var more := ReadShares(payload);
      return if more.None? then Failed(StructError) else Parsed([], more.value);
    }
    return Parsed([], []);
  }

  lemma ThenJoins(groups: seq<nat>, shares: seq<(nat, nat)>, groups1: seq<nat>, shares1: seq<(nat, nat)>, rest: Result)
    ensures Then(groups + groups1, shares + shares1, rest) == Then(groups, shares, Then(groups1, shares1, rest))
    ensures Then([], [], rest) == rest
    ensures Then(groups, shares, Parsed([], [])) == Parsed(groups, shares)
  {
    if rest.Parsed? {
      assert groups + (groups1 + rest.groups) == groups + groups1 + rest.groups;
      assert shares + (shares1 + rest.shares) == shares + shares1 + rest.shares;
      assert [] + rest.groups == rest.groups && [] + rest.shares == rest.shares;
    }
    assert groups + [] == groups && shares + [] == shares;
  }

  method ReadExtensions(body: seq<Byte>, start: nat, end: nat) returns (r: Result)
    ensures r == ExtensionsFrom(body, start, end)
  {
    var groups: seq<nat>, shares: seq<(nat, nat)> := [], [];
    var cursor := start;
    ghost var all := ExtensionsFrom(body, start, end);
    ThenJoins([], [], [], [], all);
    while cursor + 4 <= end
      invariant all == Then(groups, shares, ExtensionsFrom(body, cursor, end))
      decreases end - cursor
    {
      if cursor + 4 > |body| {
        return Failed(StructError);
      }
      var kind, length := U16(body, cursor), U16(body, cursor + 2);
      cursor := cursor + 4;
      var payload := Slice(body, cursor, cursor + length);
      cursor := cursor + length;
      var read := ReadOne(kind, payload);
      if read.Failed? {
        return read;
      }
      ThenJoins(groups, shares, read.groups, read.shares, ExtensionsFrom(body, cursor, end));
      groups := groups + read.groups;
      shares := shares + read.shares;
    }
    ThenJoins(groups, shares, [], [], all);
    return Parsed(groups, shares);
  }

  /** The parser, on any byte string at all: it ends, with the specified answer or the specified error. */
  method ParseClientHello(record: seq<Byte>) returns (r: Result)
    ensures r == Parse(record)
  {
    if |record| < 5 || record[0] != 0x16 {
      return Failed(NotHandshake);
    }
    r := ParseMessage(record[5..]);
  }

  method ParseMessage(body: seq<Byte>) returns (r: Result)
    ensures r == ParseBody(body)
  {
    if |body| == 0 {
      return Failed(IndexError);
    }
    if body[0] != 0x01 {
      return Failed(NotClientHello);
    }
    var cursor: nat := 4;
    cursor := cursor + 2;
    cursor := cursor + 32;
    if cursor >= |body| {
      return Failed(IndexError);
    }
    var sessionIdLength := body[cursor];
    cursor := cursor + 1 + sessionIdLength as nat;
    if cursor + 2 > |body| {
      return Failed(StructError);
    }
    var ciphersLength := U16(body, cursor);
    cursor := cursor + 2 + ciphersLength;
    if cursor >= |body| {
      return Failed(IndexError);
    }
    var compressionLength := body[cursor];
    cursor := cursor + 1 + compressionLength as nat;
    if cursor + 2 > |body| {
      return Failed(StructError);
    }
    var extensionsLength := U16(body, cursor);
    cursor := cursor + 2;
    r := ReadExtensions(body, cursor, cursor + extensionsLength);
  }

  // ---------------------------------------------------------------- any bytes at all

  /** Positions of headers: a tag and a 16-bit length each, every next one behind the bytes so announced. */
  ghost predicate Chain(bytes: seq<Byte>, at: nat, stop: nat, ps: seq<nat>) {
    ps != [] && ps[0] == at && forall i :: 0 <= i < |ps| - 1 ==> Follows(bytes, stop, ps[i], ps[i + 1])
  }

  ghost predicate Follows(bytes: seq<Byte>, stop: nat, p: nat, next: nat) {
    p + 4 <= stop && p + 4 <= |bytes| && next == p + 4 + U16(bytes, p + 2)
  }

  /** A chain that has come to the end of the list, or of the bytes before that. */
  ghost predicate Stops(bytes: seq<Byte>, stop: nat, p: nat) {
    p + 4 > stop || p + 4 > |bytes|
  }

  /** Every list has one chain of headers up to where it stops. */
  lemma {:induction false} ChainExists(bytes: seq<Byte>, at: nat, stop: nat) returns (ps: seq<nat>)
    ensures Chain(bytes, at, stop, ps) && Stops(bytes, stop, ps[|ps| - 1])
    decreases stop - at
  {
    if Stops(bytes, stop, at) {
      ps := [at];
    } else {
      var next := at + 4 + U16(bytes, at + 2);
      var rest := ChainExists(bytes, next, stop);
      ps := [at] + rest;
      forall i | 0 <= i < |ps| - 1 ensures Follows(bytes, stop, ps[i], ps[i + 1]) {
        if i > 0 {
          assert Follows(bytes, stop, rest[i - 1], rest[i]);
        }
      }
    }
  }

  lemma ChainTail(bytes: seq<Byte>, at: nat, stop: nat, ps: seq<nat>)
    requires Chain(bytes, at, stop, ps) && |ps| > 1
    ensures Follows(bytes, stop, at, ps[1]) && Chain(bytes, ps[1], stop, ps[1..])
  {
    assert Follows(bytes, stop, ps[0], ps[0 + 1]);
    forall i | 0 <= i < |ps[1..]| - 1 ensures Follows(bytes, stop, ps[1..][i], ps[1..][i + 1]) {
      assert Follows(bytes, stop, ps[i + 1], ps[i + 1 + 1]);
    }
  }

  /** What the headers of a chain say, the stop itself not being one. */
  ghost predicate SharesAt(bytes: seq<Byte>, ps: seq<nat>, shares: seq<(nat, nat)>) {
    && |shares| == |ps| - 1
    && forall i :: 0 <= i < |shares| ==> ps[i] + 4 <= |bytes| && shares[i] == (U16(bytes, ps[i]), U16(bytes, ps[i] + 2))
  }

  ghost predicate RawsAt(bytes: seq<Byte>, ps: seq<nat>, raws: seq<Raw>) {
    && |raws| == |ps| - 1
    && forall i :: 0 <= i < |raws| ==> RawAt(bytes, ps[i], ps[i + 1], raws[i])
  }

  ghost predicate RawAt(bytes: seq<Byte>, p: nat, next: nat, raw: Raw) {
    && p + 4 <= |bytes| && p + 4 <= next
    && raw == Raw(U16(bytes, p), bytes[p + 4..Min(next, |bytes|)])
  }

  /**
   The share list on any bytes: one pair for each header of the chain, or the exception exactly when the chain
   stops at a header that the list has room for and the payload has not.
   */
  lemma {:induction false} SharesAreTheChain(payload: seq<Byte>, at: nat, stop: nat, ps: seq<nat>)
    requires Chain(payload, at, stop, ps) && Stops(payload, stop, ps[|ps| - 1])
    ensures var r := SharesFrom(payload, at, stop);
            && (r.Some? <==> ps[|ps| - 1] + 4 > stop)
            && (r.Some? ==> SharesAt(payload, ps, r.value))
    decreases |ps|
  {
    if |ps| > 1 {
      ChainTail(payload, at, stop, ps);
      SharesAreTheChain(payload, ps[1], stop, ps[1..]);
      var r, rest := SharesFrom(payload, at, stop), SharesFrom(payload, ps[1], stop);
      if rest.Some? {
        forall i | 0 <= i < |r.value|
          ensures ps[i] + 4 <= |payload| && r.value[i] == (U16(payload, ps[i]), U16(payload, ps[i] + 2))
        {
          if i > 0 {
            assert ps[1..][i - 1] == ps[i] && r.value[i] == rest.value[i - 1];
          }
        }
      }
    }
  }

  /** The extensions in any bytes, likewise, the last one's data cut where the bytes end. */
  lemma {:induction false} ExtensionsAreTheChain(body: seq<Byte>, at: nat, end: nat, ps: seq<nat>)
    requires Chain(body, at, end, ps) && Stops(body, end, ps[|ps| - 1])
    ensures var r := Split(body, at, end);
            && (r.Some? <==> ps[|ps| - 1] + 4 > end)
            && (r.Some? ==> RawsAt(body, ps, r.value))
    decreases |ps|
  {
    if |ps| > 1 {
      ChainTail(body, at, end, ps);
      ExtensionsAreTheChain(body, ps[1], end, ps[1..]);
      var r, rest := Split(body, at, end), Split(body, ps[1], end);
      if rest.Some? {
        forall i | 0 <= i < |r.value| ensures RawAt(body, ps[i], ps[i + 1], r.value[i]) {
          if i > 0 {
            assert RawAt(body, ps[1..][i - 1], ps[1..][i - 1 + 1], rest.value[i - 1]);
          }
        }
      }
    }
  }

  /** The group list on any bytes: half its length, rounded up, of groups, and the payload must hold them all. */
  lemma {:induction false} GroupsExactly(payload: seq<Byte>, at: nat, length: nat)
    ensures var r, n := GroupsFrom(payload, at, at + length), (length + 1) / 2;
            && (r.Some? <==> n == 0 || at + 2 * n <= |payload|)
            && (r.Some? ==> |r.value| == n && forall i :: 0 <= i < n ==> r.value[i] == U16(payload, at + 2 * i))
    decreases length
  {
    if length > 0 && at + 2 <= |payload| {
      if length == 1 {
        assert GroupsFrom(payload, at + 2, at + 1) == Some([]);
      } else {
        GroupsExactly(payload, at + 2, length - 2);
        var r, rest := GroupsFrom(payload, at, at + length), GroupsFrom(payload, at + 2, at + length);
        if rest.Some? {
          forall i | 0 <= i < |r.value| ensures r.value[i] == U16(payload, at + 2 * i) {
            if i > 0 {
              assert r.value[i] == rest.value[i - 1] && at + 2 * i == at + 2 + 2 * (i - 1);
            }
          }
        }
      }
    }
  }

  /** Which bytes are refused as another kind of record or message; everything else that fails runs out of bytes. */
  lemma RefusedExactly(record: seq<Byte>)
    ensures Parse(record) == Failed(NotHandshake) <==> |record| < 5 || record[0] != 0x16
    ensures Parse(record) == Failed(NotClientHello) <==> |record| > 5 && record[0] == 0x16 && record[5] != 0x01
  {
    if |record| >= 5 {
      match Locate(record[5..])
      case Missing(_) =>
      case Found(at, length) =>
        ExtensionFailures(record[5..], at, at + length);
    }
  }

  lemma ExtensionFailures(body: seq<Byte>, at: nat, end: nat)
    ensures var r := ExtensionsFrom(body, at, end);
            r.Failed? ==> r.why == StructError
  {
    match Split(body, at, end)
    case None =>
    case Some(raws) => ReadFailures(raws);
  }

  lemma {:induction false} ReadFailures(raws: seq<Raw>)
    ensures ReadAll(raws).Failed? ==> ReadAll(raws).why == StructError
  {
    if raws != [] {
      ReadFailures(raws[1..]);
    }
  }

  // ---------------------------------------------------------------- well-formed hellos

  datatype Share = Share(group: nat, key: seq<Byte>)

  datatype Extension =
    | SupportedGroups(groups: seq<nat>)
    | KeyShare(entries: seq<Share>)
    | Other(id: nat, data: seq<Byte>)

  datatype Hello = Hello(
    recordVersion: nat,
    version: nat,
    random: seq<Byte>,
    sessionId: seq<Byte>,
    ciphers: seq<nat>,
    compression: seq<Byte>,
    extensions: seq<Extension>)

  /** A 16-bit tag and a 16-bit length. */
  function Header(tag: nat, length: nat): (s: seq<Byte>)
    ensures |s| == 4
  {
    Be16(tag) + Be16(length)
  }

  function GroupBytes(groups: seq<nat>): (s: seq<Byte>)
    ensures |s| == 2 * |groups|
  {
    if groups == [] then [] else Be16(groups[0]) + GroupBytes(groups[1..])
  }

  function ShareBytes(shares: seq<Share>): (s: seq<Byte>)
    ensures |s| >= 4 * |shares|
  {
    if shares == [] then [] else Header(shares[0].group, |shares[0].key|) + (shares[0].key + ShareBytes(shares[1..]))
  }

  function Kind(e: Extension): nat {
    match e
    case SupportedGroups(_) => SUPPORTED_GROUPS
    case KeyShare(_) => KEY_SHARE
    case Other(id, _) => id
  }

  function Payload(e: Extension): seq<Byte> {
    match e
    case SupportedGroups(groups) => Be16(|GroupBytes(groups)|) + GroupBytes(groups)
    case KeyShare(entries) => Be16(|ShareBytes(entries)|) + ShareBytes(entries)
    case Other(_, data) => data
  }

  /** The length of a list of extensions. */
  function Length(raws: seq<Raw>): (n: nat)
    ensures n >= 4 * |raws|
  {
    if raws == [] then 0 else 4 + |raws[0].data| + Length(raws[1..])
  }

  function RawBytes(raws: seq<Raw>): (s: seq<Byte>)
    ensures |s| == Length(raws)
  {
    if raws == [] then [] else Header(raws[0].kind, |raws[0].data|) + (raws[0].data + RawBytes(raws[1..]))
  }

  function Raws(es: seq<Extension>): (raws: seq<Raw>)
    ensures |raws| == |es|
  {
    if es == [] then [] else [Raw(Kind(es[0]), Payload(es[0]))] + Raws(es[1..])
  }

  /** Everything before the extensions, their length included. */
  function Opening(h: Hello): (s: seq<Byte>)
    requires |h.sessionId| < 256 && |h.compression| < 256
    ensures |s| == OpeningLength(h)
  {
    Prologue(h) + ([|h.sessionId|] + (h.sessionId + (Be16(|GroupBytes(h.ciphers)|) + (GroupBytes(h.ciphers) +
    ([|h.compression|] + (h.compression + Be16(Length(Raws(h.extensions)))))))))
  }

  function OpeningLength(h: Hello): nat {
    12 + |h.random| + |h.sessionId| + 2 * |h.ciphers| + |h.compression|
  }

  /** Handshake type, three length bytes, version and random. */
  function Prologue(h: Hello): (s: seq<Byte>)
    ensures |s| == 6 + |h.random|
  {
    var rest := 38 + |h.sessionId| + |GroupBytes(h.ciphers)| + |h.compression| + 2 + Length(Raws(h.extensions));
    [0x01, rest / 65536 % 256] + Be16(rest) + Be16(h.version) + h.random
  }

  /** The handshake message in one record. */
  function Encode(h: Hello): seq<Byte>
    requires |h.sessionId| < 256 && |h.compression| < 256
  {
    [0x16] + Be16(h.recordVersion) + Be16(OpeningLength(h) + Length(Raws(h.extensions))) +
    (Opening(h) + RawBytes(Raws(h.extensions)))
  }

  ghost predicate Is16(groups: seq<nat>) {
    forall i :: 0 <= i < |groups| ==> groups[i] < 65536
  }

  ghost predicate ExtensionFits(e: Extension) {
    && |Payload(e)| < 65536
    && match e
       case SupportedGroups(groups) => Is16(groups)
       case KeyShare(entries) => forall i :: 0 <= i < |entries| ==> entries[i].group < 65536
       case Other(id, _) => id < 65536 && id != SUPPORTED_GROUPS && id != KEY_SHARE
  }

  /** A hello the standard allows in one record: any session id, ciphers and extensions, in any order. */
  ghost predicate WellFormed(h: Hello) {
    && |h.random| == 32 && |h.sessionId| <= 32 && |h.compression| < 256
    && (forall i :: 0 <= i < |h.extensions| ==> ExtensionFits(h.extensions[i]))
    && OpeningLength(h) + Length(Raws(h.extensions)) <= 16384
  }

  function Pairs(shares: seq<Share>): (ps: seq<(nat, nat)>)
    ensures |ps| == |shares|
  {
    if shares == [] then [] else [(shares[0].group, |shares[0].key|)] + Pairs(shares[1..])
  }

  /** All the groups, and all the shares, that a list of extensions offers. */
  function Groups(es: seq<Extension>): seq<nat> {
    if es == [] then [] else (if es[0].SupportedGroups? then es[0].groups else []) + Groups(es[1..])
  }

  function Shares(es: seq<Extension>): seq<(nat, nat)> {
    if es == [] then [] else (if es[0].KeyShare? then Pairs(es[0].entries) else []) + Shares(es[1..])
  }

  // ---------------------------------------------------------------- the round trip

  /** The bytes at a position are these, as far as there are any. */
  ghost predicate At(s: seq<Byte>, at: nat, part: seq<Byte>) {
    forall i :: 0 <= i < |part| && at + i < |s| ==> s[at + i] == part[i]
  }

  lemma Peel(s: seq<Byte>, at: nat, head: seq<Byte>, tail: seq<Byte>)
    requires At(s, at, head + tail)
    ensures At(s, at, head) && At(s, at + |head|, tail)
  {
    forall i | 0 <= i < |head| && at + i < |s| ensures s[at + i] == head[i] {
      assert (head + tail)[i] == head[i];
    }
    forall i | 0 <= i < |tail| && at + |head| + i < |s| ensures s[at + |head| + i] == tail[i] {
      assert (head + tail)[|head| + i] == tail[i];
    }
  }

  lemma HeaderAt(s: seq<Byte>, at: nat, tag: nat, length: nat)
    requires At(s, at, Header(tag, length)) && at + 4 <= |s| && tag < 65536 && length < 65536
    ensures U16(s, at) == tag && U16(s, at + 2) == length
  {
    Peel(s, at, Be16(tag), Be16(length));
  }

  /** Reading as much of a group list as is there: all of it or an error. */
  lemma {:induction false} GroupsRead(payload: seq<Byte>, offset: nat, groups: seq<nat>)
    requires Is16(groups) && offset <= |payload| <= offset + 2 * |groups| && At(payload, offset, GroupBytes(groups))
    ensures GroupsFrom(payload, offset, offset + 2 * |groups|) ==
            if |payload| == offset + 2 * |groups| then Some(groups) else None
    decreases |groups|
  {
    if groups != [] && offset + 2 <= |payload| {
      Peel(payload, offset, Be16(groups[0]), GroupBytes(groups[1..]));
      GroupsRead(payload, offset + 2, groups[1..]);
      assert [groups[0]] + groups[1..] == groups;
    }
  }

  /** The parser needs all of a share list except the key bytes of its last entry. */
  function NeededBytes(shares: seq<Share>): (n: nat)
    ensures n <= |ShareBytes(shares)|
  {
    if shares == [] then 0 else if |shares| == 1 then 4 else 4 + |shares[0].key| + NeededBytes(shares[1..])
  }

  lemma {:induction false} SharesRead(payload: seq<Byte>, inner: nat, shares: seq<Share>)
    requires forall i :: 0 <= i < |shares| ==> shares[i].group < 65536
    requires |ShareBytes(shares)| < 65536
    requires inner <= |payload| <= inner + |ShareBytes(shares)| && At(payload, inner, ShareBytes(shares))
    ensures SharesFrom(payload, inner, inner + |ShareBytes(shares)|) ==
            if |payload| - inner >= NeededBytes(shares) then Some(Pairs(shares)) else None
    decreases |shares|
  {
    if shares != [] && inner + 4 <= |payload| {
      var first, rest := shares[0], ShareBytes(shares[1..]);
      Peel(payload, inner, Header(first.group, |first.key|), first.key + rest);
      HeaderAt(payload, inner, first.group, |first.key|);
      Peel(payload, inner + 4, first.key, rest);
      var next := inner + 4 + |first.key|;
      if |shares| == 1 {
        assert Pairs(shares) == [(first.group, |first.key|)];
      } else if next <= |payload| {
        SharesRead(payload, next, shares[1..]);
      }
    }
  }

  /** What the parser makes of the first `kept` bytes of an extension's payload. */
  function CutPayload(e: Extension, kept: nat): Result {
    match e
    case Other(_, _) => Parsed([], [])
    case SupportedGroups(groups) =>
      if kept < 2 then Parsed([], []) else if kept < |Payload(e)| then Failed(StructError) else Parsed(groups, [])
    case KeyShare(entries) =>
      if kept < 2 then Parsed([], [])
      else if kept < 2 + NeededBytes(entries) then Failed(StructError)
      else Parsed([], Pairs(entries))
  }

  /** A payload that is a list begins with the length of it. */
  lemma ListAt(payload: seq<Byte>, list: seq<Byte>)
    requires |payload| >= 2 && |list| < 65536 && At(payload, 0, Be16(|list|) + list)
    ensures U16(payload, 0) == |list| && At(payload, 2, list)
  {
    Peel(payload, 0, Be16(|list|), list);
  }

  lemma AtFront(s: seq<Byte>, kept: nat)
    requires kept <= |s|
    ensures At(s[..kept], 0, s)
  {
  }

  lemma PayloadRead(e: Extension, kept: nat)
    requires ExtensionFits(e) && kept <= |Payload(e)|
    ensures ReadExtension(Kind(e), Payload(e)[..kept]) == CutPayload(e, kept)
  {
    if kept >= 2 {
      AtFront(Payload(e), kept);
      match e
      case SupportedGroups(groups) =>
        ListAt(Payload(e)[..kept], GroupBytes(groups));
        GroupsRead(Payload(e)[..kept], 2, groups);
      case KeyShare(entries) =>
        ListAt(Payload(e)[..kept], ShareBytes(entries));
        SharesRead(Payload(e)[..kept], 2, entries);
      case Other(_, _) =>
    }
  }

  /** What is left of a list of extensions when only `kept` of its bytes are there. */
  function CutRaws(raws: seq<Raw>, kept: nat): Option<seq<Raw>> {
    if raws == [] then Some([])
    else if kept < 4 then None
    else if kept < 4 + |raws[0].data| then
      if |raws| == 1 then Some([Raw(raws[0].kind, raws[0].data[..kept - 4])]) else None
    else
      match CutRaws(raws[1..], kept - (4 + |raws[0].data|))
      case None => None
      case Some(rest) => Some([raws[0]] + rest)
  }

  ghost predicate RawFits(raw: Raw) {
    raw.kind < 65536 && |raw.data| < 65536
  }

  /** The first extension is as described, as far as its bytes are there. */
  ghost predicate FirstSeen(body: seq<Byte>, cursor: nat, first: Raw)
    requires cursor + 4 <= |body|
  {
    && U16(body, cursor) == first.kind && U16(body, cursor + 2) == |first.data|
    && Slice(body, cursor + 4, cursor + 4 + |first.data|) == first.data[..Min(|body| - cursor - 4, |first.data|)]
  }

  lemma RawRead(body: seq<Byte>, cursor: nat, first: Raw, rest: seq<Byte>)
    requires RawFits(first) && cursor + 4 <= |body|
    requires At(body, cursor, Header(first.kind, |first.data|) + (first.data + rest))
    ensures FirstSeen(body, cursor, first) && At(body, cursor + 4 + |first.data|, rest)
  {
    Peel(body, cursor, Header(first.kind, |first.data|), first.data + rest);
    HeaderAt(body, cursor, first.kind, |first.data|);
    Peel(body, cursor + 4, first.data, rest);
  }

  lemma CutMore(first: Raw, others: seq<Raw>, left: nat)
    ensures CutRaws([first] + others, 4 + |first.data| + left) == After([first], CutRaws(others, left))
  {
    assert ([first] + others)[1..] == others;
  }

  lemma SplitInside(body: seq<Byte>, cursor: nat, first: Raw, others: seq<Raw>)
    requires cursor + 4 + |first.data| <= |body| && FirstSeen(body, cursor, first)
    ensures var next := cursor + 4 + |first.data|;
            Split(body, cursor, next + Length(others)) == After([first], Split(body, next, next + Length(others)))
  {
    assert first.data[..|first.data|] == first.data;
  }

  lemma SplitOut(body: seq<Byte>, cursor: nat, first: Raw, others: seq<Raw>)
    requires cursor + 4 <= |body| < cursor + 4 + |first.data| && FirstSeen(body, cursor, first)
    ensures SplitIsCut(body, cursor, [first] + others)
  {
    LengthMore(first, others);
    SplitPast(body, cursor + 4 + |first.data|, others);
    CutInside(first, others, |body| - cursor);
    var left := Raw(first.kind, first.data[..|body| - cursor - 4]);
    assert left == Raw(U16(body, cursor), Slice(body, cursor + 4, cursor + 4 + |first.data|));
    assert [left] + [] == [left];
  }

  lemma CutInside(first: Raw, others: seq<Raw>, kept: nat)
    requires 4 <= kept < 4 + |first.data|
    ensures CutRaws([first] + others, kept) ==
            if others == [] then Some([Raw(first.kind, first.data[..kept - 4])]) else None
  {
    assert ([first] + others)[1..] == others;
  }

  lemma {:induction false} FirstRead(body: seq<Byte>, cursor: nat, raws: seq<Raw>)
    requires raws != [] && RawFits(raws[0]) && cursor + 4 <= |body| && At(body, cursor, RawBytes(raws))
    ensures FirstSeen(body, cursor, raws[0]) && At(body, cursor + 4 + |raws[0].data|, RawBytes(raws[1..]))
    ensures Length(raws) == 4 + |raws[0].data| + Length(raws[1..])
  {
    RawRead(body, cursor, raws[0], RawBytes(raws[1..]));
  }

  lemma {:induction false} SplitRead(body: seq<Byte>, cursor: nat, raws: seq<Raw>)
    requires forall i :: 0 <= i < |raws| ==> RawFits(raws[i])
    requires cursor <= |body| && At(body, cursor, RawBytes(raws))
    ensures SplitIsCut(body, cursor, raws)
    decreases |raws|
  {
    if raws == [] || cursor + 4 > |body| {
      SplitShort(body, cursor, raws);
    } else {
      FirstRead(body, cursor, raws);
      assert [raws[0]] + raws[1..] == raws;
      var next := cursor + 4 + |raws[0].data|;
      if next <= |body| {
        SplitRead(body, next, raws[1..]);
        SplitOn(body, cursor, raws[0], raws[1..]);
      } else {
        SplitOut(body, cursor, raws[0], raws[1..]);
      }
    }
  }

  ghost predicate SplitIsCut(body: seq<Byte>, cursor: nat, raws: seq<Raw>)
    requires cursor <= |body|
  {
    Split(body, cursor, cursor + Length(raws)) == CutRaws(raws, Min(|body| - cursor, Length(raws)))
  }

  lemma SplitOn(body: seq<Byte>, cursor: nat, first: Raw, others: seq<Raw>)
    requires cursor + 4 + |first.data| <= |body| && FirstSeen(body, cursor, first)
    requires SplitIsCut(body, cursor + 4 + |first.data|, others)
    ensures SplitIsCut(body, cursor, [first] + others)
  {
    var size := 4 + |first.data|;
    var left := Min(|body| - (cursor + size), Length(others));
    assert Min(|body| - cursor, Length([first] + others)) == size + left by {
      LengthMore(first, others);
    }
    assert Split(body, cursor, cursor + Length([first] + others)) == After([first], CutRaws(others, left)) by {
      LengthMore(first, others);
      SplitInside(body, cursor, first, others);
    }
    CutMore(first, others, left);
  }

  lemma LengthMore(first: Raw, others: seq<Raw>)
    ensures Length([first] + others) == 4 + |first.data| + Length(others)
  {
    assert ([first] + others)[1..] == others;
  }

  lemma SplitShort(body: seq<Byte>, cursor: nat, raws: seq<Raw>)
    requires cursor <= |body| && (raws == [] || cursor + 4 > |body|)
    ensures Split(body, cursor, cursor + Length(raws)) == CutRaws(raws, Min(|body| - cursor, Length(raws)))
  {
  }

  lemma SplitPast(body: seq<Byte>, next: nat, raws: seq<Raw>)
    requires next > |body|
    ensures Split(body, next, next + Length(raws)) == if raws == [] then Some([]) else None
  {
  }

  lemma {:induction false} CutNothing(raws: seq<Raw>)
    ensures CutRaws(raws, Length(raws)) == Some(raws)
  {
    if raws != [] {
      CutNothing(raws[1..]);
      CutMore(raws[0], raws[1..], Length(raws[1..]));
      assert [raws[0]] + raws[1..] == raws;
    }
  }

  /** Cut short, a list of extensions passes exactly when the cut falls in the data of the last one. */
  lemma {:induction false} CutSomething(before: seq<Raw>, last: Raw, kept: nat)
    requires kept < Length(before) + 4 + |last.data|
    ensures Length(before + [last]) == Length(before) + 4 + |last.data|
    ensures CutRaws(before + [last], kept) ==
            if kept < Length(before) + 4 then None
            else Some(before + [Raw(last.kind, last.data[..kept - Length(before) - 4])])
  {
    var all := before + [last];
    if before == [] {
      assert all == [last] && all[1..] == [];
      assert forall x: Raw :: before + [x] == [x];
    } else {
      var others, size := before[1..], 4 + |before[0].data|;
      assert all == [before[0]] + (others + [last]);
      if kept >= size {
        CutMore(before[0], others + [last], kept - size);
        CutSomething(others, last, kept - size);
        if kept >= Length(before) + 4 {
          var left := Raw(last.kind, last.data[..kept - Length(before) - 4]);
          assert [before[0]] + (others + [left]) == before + [left];
        }
      } else {
        CutSomething(others, last, 0);
      }
    }
  }

  /** A whole extension at the head of a list gives its own groups or shares. */
  lemma ReadFirst(e: Extension, rest: seq<Raw>)
    requires ExtensionFits(e)
    ensures ReadAll([Raw(Kind(e), Payload(e))] + rest) ==
            Then(if e.SupportedGroups? then e.groups else [],
                 if e.KeyShare? then Pairs(e.entries) else [],
                 ReadAll(rest))
  {
    assert Payload(e)[..|Payload(e)|] == Payload(e);
    PayloadRead(e, |Payload(e)|);
    assert ([Raw(Kind(e), Payload(e))] + rest)[1..] == rest;
  }

  /** The extensions the standard puts in a list, read back with something after them. */
  lemma {:induction false} AllRead(es: seq<Extension>, tail: seq<Raw>)
    requires forall i :: 0 <= i < |es| ==> ExtensionFits(es[i])
    ensures ReadAll(Raws(es) + tail) == Then(Groups(es), Shares(es), ReadAll(tail))
  {
    if es == [] {
      ThenJoins([], [], [], [], ReadAll(tail));
      assert Raws(es) + tail == tail;
    } else {
      var e, others := es[0], es[1..];
      AllRead(others, tail);
      assert Raws(es) + tail == [Raw(Kind(e), Payload(e))] + (Raws(others) + tail);
      ReadFirst(e, Raws(others) + tail);
      ThenJoins(if e.SupportedGroups? then e.groups else [], if e.KeyShare? then Pairs(e.entries) else [],
                Groups(others), Shares(others), ReadAll(tail));
    }
  }

  lemma {:induction false} RawsFit(es: seq<Extension>)
    requires forall i :: 0 <= i < |es| ==> ExtensionFits(es[i])
    ensures forall i :: 0 <= i < |es| ==> RawFits(Raws(es)[i])
  {
    if es != [] {
      RawsFit(es[1..]);
      forall i | 0 <= i < |es| ensures RawFits(Raws(es)[i]) {
        assert ExtensionFits(es[0]);
        assert i > 0 ==> Raws(es)[i] == Raws(es[1..])[i - 1];
      }
    }
  }

  lemma {:induction false} RawsSnoc(before: seq<Extension>, last: Extension)
    ensures Raws(before + [last]) == Raws(before) + [Raw(Kind(last), Payload(last))]
  {
    var es := before + [last];
    if before == [] {
      assert es == [last] && es[1..] == [];
    } else {
      RawsSnoc(before[1..], last);
      assert es[0] == before[0] && es[1..] == before[1..] + [last];
    }
  }

  lemma CompressionRead(body: seq<Byte>, at: nat, comp: seq<Byte>, total: nat)
    requires |comp| < 256 && total < 65536 && At(body, at, [|comp|] + (comp + Be16(total)))
    ensures var end := at + 1 + |comp| + 2;
            SkipCompression(body, at) ==
            if |body| < end then Missing(if |body| <= at then IndexError else StructError) else Found(end, total)
  {
    if at < |body| {
      Peel(body, at, [|comp|], comp + Be16(total));
      assert body[at + 0] == [|comp| as Byte][0];
      Peel(body, at + 1, comp, Be16(total));
    }
  }

  /** The exception when the bytes end between the ciphers, which begin at a position, and the extensions. */
  function OutOfBytes(size: nat, at: nat, ciphersLength: nat): Failure {
    if at + 2 <= size <= at + 2 + ciphersLength then IndexError else StructError
  }

  lemma CiphersRead(body: seq<Byte>, at: nat, suites: seq<Byte>, comp: seq<Byte>, total: nat)
    requires |suites| < 65536 && |comp| < 256 && total < 65536
    requires At(body, at, Be16(|suites|) + (suites + ([|comp|] + (comp + Be16(total)))))
    ensures var end := at + 2 + |suites| + 1 + |comp| + 2;
            SkipCiphers(body, at) ==
            if |body| < end then Missing(OutOfBytes(|body|, at, |suites|)) else Found(end, total)
  {
    if at + 2 <= |body| {
      Peel(body, at, Be16(|suites|), suites + ([|comp|] + (comp + Be16(total))));
      Peel(body, at + 2, suites, [|comp|] + (comp + Be16(total)));
      CompressionRead(body, at + 2 + |suites|, comp, total);
    }
  }

  /** Reading up to the extensions: all of it must be there, and then the bounds are right. */
  lemma SessionRead(body: seq<Byte>, sid: seq<Byte>, suites: seq<Byte>, comp: seq<Byte>, total: nat)
    requires |sid| < 256 && |suites| < 65536 && |comp| < 256 && total < 65536 && |body| > 38
    requires At(body, 38, [|sid|] + (sid + (Be16(|suites|) + (suites + ([|comp|] + (comp + Be16(total)))))))
    ensures var at, end := 39 + body[38] as nat, 39 + |sid| + 2 + |suites| + 1 + |comp| + 2;
            SkipCiphers(body, at) ==
            if |body| < end then Missing(OutOfBytes(|body|, 39 + |sid|, |suites|)) else Found(end, total)
  {
    var rest := Be16(|suites|) + (suites + ([|comp|] + (comp + Be16(total))));
    Peel(body, 38, [|sid|], sid + rest);
    assert body[38 + 0] == [|sid| as Byte][0];
    Peel(body, 39, sid, rest);
    CiphersRead(body, 39 + |sid|, suites, comp, total);
  }

  /** The exception when a message is cut before its extensions: what was being read where the bytes end. */
  function OpeningFailure(h: Hello, size: nat): Failure {
    if size <= 38 then IndexError else OutOfBytes(size, 39 + |h.sessionId|, 2 * |h.ciphers|)
  }

  /** The same for the record around it. */
  function CutFailure(h: Hello, n: nat): Failure {
    if n < 5 then NotHandshake else if n < 5 + OpeningLength(h) then OpeningFailure(h, n - 5) else StructError
  }

  /** Reading up to the extensions: all of it must be there, and then the bounds are right. */
  lemma {:induction false} OpeningRead(h: Hello, body: seq<Byte>)
    requires WellFormed(h) && At(body, 0, Opening(h))
    ensures Locate(body) ==
            if |body| < OpeningLength(h) then Missing(OpeningFailure(h, |body|))
            else Found(OpeningLength(h), Length(Raws(h.extensions)))
  {
    var sid, suites, comp := h.sessionId, GroupBytes(h.ciphers), h.compression;
    var total := Length(Raws(h.extensions));
    Peel(body, 0, Prologue(h), [|sid|] + (sid + (Be16(|suites|) + (suites + ([|comp|] + (comp + Be16(total)))))));
    assert Prologue(h)[0] == 0x01 && |Prologue(h)| == 38;
    if |body| > 38 {
      assert body[0 + 0] == Prologue(h)[0];
      SessionRead(body, sid, suites, comp, total);
    }
  }

  /** What the parser makes of a list of extensions of which `kept` bytes are there. */
  function ReadCut(raws: seq<Raw>, kept: nat): Result {
    match CutRaws(raws, kept)
    case None => Failed(StructError)
    case Some(left) => ReadAll(left)
  }

  lemma {:induction false} ListRead(body: seq<Byte>, raws: seq<Raw>, start: nat)
    requires forall i :: 0 <= i < |raws| ==> RawFits(raws[i])
    requires start <= |body| && Locate(body) == Found(start, Length(raws)) && At(body, start, RawBytes(raws))
    ensures ParseBody(body) == ReadCut(raws, Min(|body| - start, Length(raws)))
  {
    SplitRead(body, start, raws);
  }

  lemma BodyRead(h: Hello, body: seq<Byte>)
    requires WellFormed(h) && At(body, 0, Opening(h)) && At(body, OpeningLength(h), RawBytes(Raws(h.extensions)))
    ensures var raws, start := Raws(h.extensions), OpeningLength(h);
            ParseBody(body) ==
            if |body| < start then Failed(OpeningFailure(h, |body|))
            else ReadCut(raws, Min(|body| - start, Length(raws)))
  {
    OpeningRead(h, body);
    RawsFit(h.extensions);
    if OpeningLength(h) <= |body| {
      ListRead(body, Raws(h.extensions), OpeningLength(h));
    }
  }

  lemma AtTail(s: seq<Byte>, at: nat, part: seq<Byte>)
    requires at <= |s| && At(s, at, part)
    ensures At(s[at..], 0, part)
  {
    forall i | 0 <= i < |part| && 0 + i < |s[at..]| ensures s[at..][0 + i] == part[i] {
      assert s[at..][i] == s[at + i];
    }
  }

  /** A record whose first bytes are those of an encoded hello, whole or cut. */
  lemma RecordRead(h: Hello, record: seq<Byte>)
    requires WellFormed(h) && |record| >= 5 && At(record, 0, Encode(h))
    ensures var raws, start := Raws(h.extensions), 5 + OpeningLength(h);
            Parse(record) ==
            if |record| < start then Failed(CutFailure(h, |record|))
            else ReadCut(raws, Min(|record| - start, Length(raws)))
  {
    HeaderRead(h, record);
    BodyRead(h, record[5..]);
  }

  /** Behind the five bytes of its header a record holds the message. */
  lemma HeaderRead(h: Hello, record: seq<Byte>)
    requires WellFormed(h) && |record| >= 5 && At(record, 0, Encode(h))
    ensures record[0] == 0x16 && At(record[5..], 0, Opening(h))
    ensures At(record[5..], OpeningLength(h), RawBytes(Raws(h.extensions)))
  {
    var header := [0x16] + Be16(h.recordVersion) + Be16(OpeningLength(h) + Length(Raws(h.extensions)));
    var message := Opening(h) + RawBytes(Raws(h.extensions));
    Peel(record, 0, header, message);
    assert header[0] == 0x16 && record[0 + 0] == header[0];
    AtTail(record, 5, message);
    Peel(record[5..], 0, Opening(h), RawBytes(Raws(h.extensions)));
  }

  lemma WholeList(es: seq<Extension>)
    requires forall i :: 0 <= i < |es| ==> ExtensionFits(es[i])
    ensures ReadCut(Raws(es), Length(Raws(es))) == Parsed(Groups(es), Shares(es))
  {
    CutNothing(Raws(es));
    AllRead(es, []);
    assert Raws(es) + [] == Raws(es);
    ThenJoins(Groups(es), Shares(es), [], [], Parsed([], []));
  }

  /** The last extension, of whose payload `kept` bytes are left, after some that are whole. */
  lemma LastCut(before: seq<Extension>, last: Extension, kept: nat)
    requires forall i :: 0 <= i < |before| ==> ExtensionFits(before[i])
    requires ExtensionFits(last) && kept <= |Payload(last)|
    ensures ReadAll(Raws(before) + [Raw(Kind(last), Payload(last)[..kept])]) ==
            Then(Groups(before), Shares(before), CutPayload(last, kept))
  {
    var left, own := Raw(Kind(last), Payload(last)[..kept]), CutPayload(last, kept);
    PayloadRead(last, kept);
    AllRead(before, [left]);
    assert [left][1..] == [];
    if own.Parsed? {
      ThenJoins(own.groups, own.shares, [], [], Parsed([], []));
    }
  }

  lemma {:induction false} CutList(before: seq<Extension>, last: Extension, kept: nat)
    requires kept < Length(Raws(before + [last]))
    requires ExtensionFits(last) && forall i :: 0 <= i < |before| ==> ExtensionFits(before[i])
    ensures var start := Length(Raws(before)) + 4;
            ReadCut(Raws(before + [last]), kept) ==
            if kept < start then Failed(StructError)
            else Then(Groups(before), Shares(before), CutPayload(last, kept - start))
  {
    var rawLast := Raw(Kind(last), Payload(last));
    RawsSnoc(before, last);
    var start := Length(Raws(before)) + 4;
    CutSomething(Raws(before), rawLast, 0);
    CutSomething(Raws(before), rawLast, kept);
    if kept >= start {
      LastCut(before, last, kept - start);
    }
  }

  lemma EncodeAt(h: Hello, record: seq<Byte>)
    requires WellFormed(h)
    requires Encode(h) <= record || record <= Encode(h)
    ensures At(record, 0, Encode(h))
    ensures |Encode(h)| == 5 + OpeningLength(h) + Length(Raws(h.extensions))
  {
  }

  /** The parser gives back exactly the groups and key shares that were encoded, whatever follows the message. */
  lemma RoundTrip(h: Hello, tail: seq<Byte>)
    requires WellFormed(h)
    ensures Parse(Encode(h) + tail) == Parsed(Groups(h.extensions), Shares(h.extensions))
  {
    EncodeAt(h, Encode(h) + tail);
    RecordRead(h, Encode(h) + tail);
    WholeList(h.extensions);
  }

  /** What the parser should make of the first n bytes of an encoded hello. */
  ghost predicate ReadsAsCut(h: Hello, n: nat, r: Result) {
    if h.extensions == [] then r == Failed(CutFailure(h, n))
    else forall before, last :: h.extensions == before + [last] ==> EndsCut(h, before, last, n, r)
  }

  /** The same for a hello with extensions, one of them being the last. */
  ghost predicate EndsCut(h: Hello, before: seq<Extension>, last: Extension, n: nat, r: Result) {
    var start := 5 + OpeningLength(h) + Length(Raws(before)) + 4;
    r == if n < start then Failed(CutFailure(h, n))
         else Then(Groups(before), Shares(before), CutPayload(last, n - start))
  }

  lemma ListEndsCut(h: Hello, before: seq<Extension>, last: Extension, n: nat)
    requires h.extensions == before + [last]
    requires ExtensionFits(last) && forall i :: 0 <= i < |before| ==> ExtensionFits(before[i])
    requires 0 <= n - 5 - OpeningLength(h) < Length(Raws(h.extensions))
    ensures EndsCut(h, before, last, n, ReadCut(Raws(h.extensions), n - 5 - OpeningLength(h)))
  {
    CutList(before, last, n - 5 - OpeningLength(h));
  }

  lemma CutEarly(h: Hello, record: seq<Byte>)
    requires WellFormed(h) && |record| < 5 + OpeningLength(h) && At(record, 0, Encode(h))
    ensures Parse(record) == Failed(CutFailure(h, |record|))
  {
    if |record| >= 5 {
      RecordRead(h, record);
    }
  }

  lemma CutLate(h: Hello, before: seq<Extension>, last: Extension, record: seq<Byte>)
    requires WellFormed(h) && h.extensions == before + [last] && At(record, 0, Encode(h))
    requires 0 <= |record| - 5 - OpeningLength(h) < Length(Raws(h.extensions))
    ensures EndsCut(h, before, last, |record|, Parse(record))
  {
    RecordRead(h, record);
    FitParts(h.extensions, before, last);
    ListEndsCut(h, before, last, |record|);
  }

  lemma FitParts(es: seq<Extension>, before: seq<Extension>, last: Extension)
    requires es == before + [last] && forall i :: 0 <= i < |es| ==> ExtensionFits(es[i])
    ensures ExtensionFits(last) && forall i :: 0 <= i < |before| ==> ExtensionFits(before[i])
  {
    assert es[|before|] == last;
    forall i | 0 <= i < |before| ensures ExtensionFits(before[i]) {
      assert es[i] == before[i];
    }
  }

  lemma CutRead(h: Hello, record: seq<Byte>)
    requires WellFormed(h) && |record| < 5 + OpeningLength(h) + Length(Raws(h.extensions))
    requires At(record, 0, Encode(h))
    ensures ReadsAsCut(h, |record|, Parse(record))
  {
    if |record| < 5 + OpeningLength(h) {
      CutEarly(h, record);
    } else {
      forall before, last | h.extensions == before + [last] ensures EndsCut(h, before, last, |record|, Parse(record)) {
        CutLate(h, before, last, record);
      }
    }
  }

  /**
   What the parser makes of a record that was cut short, down to which exception. It raises unless the cut falls in
   the payload of the last extension; there the slice is silently shorter, and whether that is noticed depends on
   the extension.
   */
  lemma CutRecord(h: Hello, n: nat)
    requires WellFormed(h) && n < |Encode(h)|
    ensures ReadsAsCut(h, n, Parse(Encode(h)[..n]))
  {
    EncodeAt(h, Encode(h)[..n]);
    CutRead(h, Encode(h)[..n]);
  }

  /** Which cuts inside the payload of the last extension go unnoticed. */
  lemma UnnoticedCut(e: Extension, kept: nat)
    requires kept < |Payload(e)|
    ensures CutPayload(e, kept).Parsed? <==>
            e.Other? || kept < 2 ||
            (e.KeyShare? && e.entries != [] &&
              kept >= |Payload(e)| - |e.entries[|e.entries| - 1].key|)
  {
    if e.KeyShare? {
      Needed(e.entries);
    }
  }

  lemma {:induction false} Needed(shares: seq<Share>)
    ensures NeededBytes(shares) == if shares == [] then 0 else |ShareBytes(shares)| - |shares[|shares| - 1].key|
  {
    if |shares| > 1 {
      Needed(shares[1..]);
    }
  }
}
