/**
 Whole connections: requests printed one after another on one stream are served as exactly
 those requests, each with its own bytes, however the stream is cut into pieces and wake-ups.
 */
module Pipeline {
  import opened Text
  import opened Head
  import opened Net
  import opened HttpRequest
  import opened Cuts
  import opened ClientStream

  datatype Message = Message(verb: string, target: string, version: string, fields: seq<Field>, body: string)

  function HeadOf(m: Message): string { PrintHead(m.verb, m.target, m.version, m.fields) }

  function Bytes(m: Message): string { HeadOf(m) + m.body }

  /** A printable request that names a host and declares its body, if any, by one Content-Length. */
  predicate Plain(m: Message) {
    && PlainWord(m.verb) && PlainWord(m.target) && PlainFields(m.fields)
    && Trimmed(m.version) && NoNewline(m.version) && StartsWith(m.version, "HTTP/")
    && (SplitTarget(m.target).0 != "" || (ValuesOf(m.fields, "host") != [] && Joined(ValuesOf(m.fields, "host")) != ""))
    && DeclaresBody(m)
  }

  predicate DeclaresBody(m: Message) {
    var lengths := ValuesOf(m.fields, "content-length");
    (lengths == [Decimal(|m.body|)] && |m.body| <= LONG_MAX) || (lengths == [] && m.body == "")
  }

  /** The request as parsed from its own head. */
  function RequestOf(m: Message): Request { Seen(ParseRequest(HeadOf(m))) }

  function EventOf(m: Message): Event { Served(RequestOf(m), Bytes(m)) }

  lemma DeclaredLength(m: Message, h: Fields)
    requires DeclaresBody(m)
    requires "content-length" in h <==> ValuesOf(m.fields, "content-length") != []
    requires "content-length" in h ==> h["content-length"] == Joined(ValuesOf(m.fields, "content-length"))
    ensures ContentLengthOf(h) == if ValuesOf(m.fields, "content-length") == [] then -1 else |m.body|
  {
    hide Decimal, StrtolOf, Joined;
    JoinedOne(Decimal(|m.body|));
    if "content-length" in h { StrtolDecimal(|m.body|); }
  }

  /** The first request of a stream, whatever follows it. */
  lemma FirstMessage(m: Message, rest: string, maxHeader: nat)
    requires Plain(m)
    ensures Unambiguous(Bytes(m) + rest) && FindHeaderEnd(Bytes(m) + rest) == Some(|HeadOf(m)|)
    ensures NextOf(Bytes(m) + rest, maxHeader) == Serve(EventOf(m), |Bytes(m)|)
  {
    hide ValuesOf, SplitTarget, ContentLengthOf, KeepAliveOf, ParseRequest, PrintHead, FindHeaderEnd, Unambiguous,
      PlainWord, PlainFields, Trimmed, Joined, Decimal, DeclaresBody;
    var head, tail := HeadOf(m), m.body + rest;
    var s := head + tail;
    assert Bytes(m) + rest == s;
    PrintParse(m.verb, m.target, m.version, m.fields, tail);
    var r := ParseRequest(s);
    HeadFound(m, tail);
    DeclaredLength(m, r.headers);
    assert s[..|head|] == head;
    ParseDependsOnHeadOnly(s, |head|);
    HostFound(m, r);
    BodyDeclared(m);
    assert s[..|Bytes(m)|] == Bytes(m);
  }

  lemma BodyDeclared(m: Message)
    requires DeclaresBody(m)
    ensures ValuesOf(m.fields, "content-length") == [] ==> m.body == ""
  {
  }

  lemma HeadFound(m: Message, tail: string)
    requires PlainWord(m.verb) && PlainWord(m.target) && PlainFields(m.fields)
    requires Trimmed(m.version) && NoNewline(m.version) && StartsWith(m.version, "HTTP/")
    ensures FindHeaderEnd(HeadOf(m) + tail) == Some(|HeadOf(m)|)
  {
    hide PrintHead, ValuesOf, FindHeaderEnd;
    PrintParse(m.verb, m.target, m.version, m.fields, tail);
    SizeOfHead(HeadOf(m) + tail, |HeadOf(m)|);
  }

  lemma SizeOfHead(raw: string, n: nat)
    requires ParseRequest(raw).headerBytes == n && n >= 2
    ensures FindHeaderEnd(raw) == Some(n)
  {
    hide FindHeaderEnd, ParseHead;
  }

  lemma HostFound(m: Message, r: Request)
    requires (r.host, r.path) == HostAndPath(m.target, r.headers)
    requires SplitTarget(m.target).0 != "" || (ValuesOf(m.fields, "host") != [] && Joined(ValuesOf(m.fields, "host")) != "")
    requires "host" in r.headers <==> ValuesOf(m.fields, "host") != []
    requires "host" in r.headers ==> r.headers["host"] == Joined(ValuesOf(m.fields, "host"))
    ensures r.host != ""
  {
    hide SplitTarget, ValuesOf, Joined;
  }

  function Stream(ms: seq<Message>): string {
    if ms == [] then "" else Bytes(ms[0]) + Stream(ms[1..])
  }

  /** One event a request, up to the first after which the connection is closed. */
  function Expected(ms: seq<Message>, n: nat, keep: nat -> bool): seq<Event> {
    if ms == [] then [] else [EventOf(ms[0])] + if keep(n) then Expected(ms[1..], n + 1, keep) else []
  }

  predicate AllPlain(ms: seq<Message>, maxHeader: nat) {
    forall i :: 0 <= i < |ms| ==> Plain(ms[i]) && |HeadOf(ms[i])| <= maxHeader + 1
  }

  /** Requests run together are told apart: each is served with exactly its own bytes, and the stream is well framed. */
  lemma {:induction false} ServePipelined(ms: seq<Message>, n: nat, keep: nat -> bool, maxHeader: nat)
    requires AllPlain(ms, maxHeader)
    ensures ServeAll(Stream(ms), n, keep, maxHeader).events == Expected(ms, n, keep)
    ensures WellFramed(Stream(ms), n, keep, maxHeader)
    decreases |ms|
  {
    hide NextOf, Bytes, EventOf, Plain, Unambiguous, FindHeaderEnd;
    if ms == [] {
      EmptyStream(maxHeader);
    } else {
      var m, rest := ms[0], Stream(ms[1..]);
      assert Plain(m);
      FirstMessage(m, rest, maxHeader);
      assert Stream(ms)[|Bytes(m)|..] == rest;
      ServePipelined(ms[1..], n + 1, keep, maxHeader);
    }
  }

  lemma EmptyStream(maxHeader: nat)
    ensures NextOf("", maxHeader) == Wait && Unambiguous("") && FindHeaderEnd("") == None
  {
  }

  /**
   Pipelined requests received in any pieces over any wake-ups, within the limits and without a
   socket error, are served in order, each with exactly the bytes that were printed for it.
   */
  lemma AnyPieces(ms: seq<Message>, script: seq<Recv>, keep: nat -> bool, limits: Limits)
    requires AllPlain(ms, limits.maxHeader) && Received(script) == Stream(ms)
    requires Failed !in script && |Stream(ms)| <= limits.maxHeader + limits.maxBody
    ensures ConnectionFrom(script, "", 0, keep, limits) == Expected(ms, 0, keep)
  {
    hide AllPlain, Received, Stream, Expected, ConnectionFrom, ServeAll, WellFramed, Quiet;
    assert "" + Received(script) == Stream(ms);
    ServePipelined(ms, 0, keep, limits.maxHeader);
    NothingIsQuiet(keep, limits.maxHeader);
    SegmentationIndependent(script, "", 0, keep, limits);
  }

  // ------------------------------------------------------ above the payload limit

  lemma EmptyWaits(maxHeader: nat)
    ensures NextOf("", maxHeader) == Wait
  {
    NoHeadInNothing();
    hide FindHeaderEnd;
  }

  lemma ServeOne(s: string, n: nat, keep: nat -> bool, maxHeader: nat)
    requires NextOf(s, maxHeader).Serve? && NextOf(s, maxHeader).need == |s|
    ensures ServeAll(s, n, keep, maxHeader) == Walk([NextOf(s, maxHeader).served], "", keep(n))
  {
    EmptyWaits(maxHeader);
    hide NextOf;
    assert s[|s|..] == "";
  }

  lemma EmptyWalk(n: nat, keep: nat -> bool, maxHeader: nat)
    ensures ServeAll("", n, keep, maxHeader) == Walk([], "", true)
  {
    EmptyWaits(maxHeader);
    hide NextOf;
  }

  /** Each request on its own, the kernel having nothing more after it. */
  function OneByOne(ms: seq<Message>): seq<Recv> {
    if ms == [] then [] else Burst(Bytes(ms[0])) + ([WouldBlock] + OneByOne(ms[1..]))
  }

  /** Printed requests, each of which fits the buffer. */
  predicate EachFits(ms: seq<Message>, limits: Limits) {
    forall i :: 0 <= i < |ms| ==> Plain(ms[i]) && |Bytes(ms[i])| <= limits.maxHeader + limits.maxBody
  }

  lemma {:induction false} OneByOneDelivers(ms: seq<Message>)
    ensures Delivers(OneByOne(ms), Stream(ms))
    decreases |ms|
  {
    hide Received, Burst, Bytes;
    if ms == [] {
      ReceivedNone();
    } else {
      var b, more := Bytes(ms[0]), OneByOne(ms[1..]);
      OneByOneDelivers(ms[1..]);
      BurstDelivers(b);
      BurstHasNoEof(b);
      ReceivedCons(WouldBlock, more);
      ReceivedConcat(Burst(b), [WouldBlock] + more);
      assert "" + Received(more) == Received(more);
    }
  }

  /** One round for each request. */
  lemma OneRound(m: Message, more: seq<Recv>, n: nat, keep: nat -> bool, limits: Limits)
    requires Plain(m) && |Bytes(m)| <= limits.maxHeader + limits.maxBody
    ensures RoundOf(Burst(Bytes(m)) + ([WouldBlock] + more), "", n, keep, limits) ==
            Handled([EventOf(m)], keep(n), "", n + 1, more)
  {
    hide DrainFrom, ServeAll, Ahead, NextOf, Burst, Bytes, EventOf, Plain, FindHeaderEnd, Unambiguous, RoundOf;
    var cap, b := limits.maxHeader + limits.maxBody, Bytes(m);
    assert "" + b == b && b + "" == b;
    DrainBurst(b, [WouldBlock] + more, "", cap);
    DrainBlocked(more, b, cap);
    FirstMessage(m, "", limits.maxHeader);
    ServeOne(b, n, keep, limits.maxHeader);
    RoundAbove(Burst(b) + ([WouldBlock] + more), "", n, keep, limits);
  }

  lemma {:induction false} OneByOneServed(ms: seq<Message>, n: nat, keep: nat -> bool, limits: Limits)
    requires EachFits(ms, limits)
    ensures var h := HandleFrom(OneByOne(ms), "", n, keep, limits); h.events == Expected(ms, n, keep) && (h.open ==> h.rest == [])
    decreases |ms|
  {
    hide RoundOf, Ahead, Burst, Bytes, EventOf, Plain, OneByOne, ServeAll, DrainFrom, NextOf;
    if ms == [] {
      assert OneByOne(ms) == [] by { NoRequests(ms); }
      DrainNothing("", limits.maxHeader + limits.maxBody);
      EmptyWalk(n, keep, limits.maxHeader);
      RoundAbove([], "", n, keep, limits);
    } else {
      FirstOfMany(ms);
      OneRound(ms[0], OneByOne(ms[1..]), n, keep, limits);
      if keep(n) { OneByOneServed(ms[1..], n + 1, keep, limits); }
    }
  }

  lemma NoRequests(ms: seq<Message>)
    requires ms == []
    ensures OneByOne(ms) == []
  {
  }

  lemma FirstOfMany(ms: seq<Message>)
    requires ms != []
    ensures OneByOne(ms) == Burst(Bytes(ms[0])) + ([WouldBlock] + OneByOne(ms[1..]))
  {
  }

  /**
   Two deliveries of one stream, different events: requests that fit the buffer one at a time but not all together are
   refused as too large when they come in one burst, before any of them is looked at, and are all served when the
   kernel has nothing more after each.
   */
  lemma BurstRefusedPiecesServed(ms: seq<Message>, keep: nat -> bool, limits: Limits)
    requires EachFits(ms, limits) && |Stream(ms)| > limits.maxHeader + limits.maxBody
    ensures var s := Stream(ms);
            && Delivers(Burst(s), s) && Delivers(OneByOne(ms), s)
            && ConnectionFrom(Burst(s), "", 0, keep, limits) == [PayloadTooLarge]
            && ConnectionFrom(OneByOne(ms), "", 0, keep, limits) == Expected(ms, 0, keep)
            && Expected(ms, 0, keep)[..1] == [EventOf(ms[0])]
  {
    hide EachFits, HandleFrom, OneByOne, Delivers, Burst, Bytes, EventOf;
    var s := Stream(ms);
    BurstDelivers(s);
    OneByOneDelivers(ms);
    BurstTooLarge(s, keep, limits);
    OneByOneServed(ms, 0, keep, limits);
    FirstOfMany(ms);
  }

  // -------------------------------------------------------------- an instance

  /** Two GET requests of 28 bytes each, and limits of 40 bytes together. */
  lemma TwoGetsTooLarge(keep: nat -> bool, g: string, limits: Limits)
    requires keep(0) && g == "GET /b HTTP/1.1\r\nHost: h\r\n\r\n" && limits == Limits(30, 10)
    ensures ConnectionFrom([Data(g + g)], "", 0, keep, limits) == [PayloadTooLarge]
    ensures |ConnectionFrom([Data(g), WouldBlock, Data(g), WouldBlock], "", 0, keep, limits)| == 2
  {
    hide ConnectionFrom, Delivers, Burst, Bytes, Plain, OneByOne, Stream, Expected, EventOf;
    var m := Message("GET", "/b", "HTTP/1.1", [Field("Host", "h")], "");
    GetPlain(m);
    CrlfBytes(m);
    TwoOfOne(m, g, keep);
    BurstRefusedPiecesServed([m, m], keep, limits);
  }

  lemma TwoOfOne(m: Message, g: string, keep: nat -> bool)
    requires g == Bytes(m) && 0 < |g| && |g + g| <= RECV_MAX && keep(0)
    ensures Stream([m, m]) == g + g && Burst(g + g) == [Data(g + g)]
    ensures OneByOne([m, m]) == [Data(g), WouldBlock, Data(g), WouldBlock]
    ensures |Expected([m, m], 0, keep)| == 2
  {
    hide Bytes, Burst, EventOf;
    SmallBurst(g);
    SmallBurst(g + g);
    assert [m, m][1..] == [m] && [m][1..] == [];
    assert Stream([m]) == g && OneByOne([m]) == [Data(g), WouldBlock];
    assert Expected([m], 1, keep) == [EventOf(m)];
  }

  lemma SmallBurst(g: string)
    requires 0 < |g| <= RECV_MAX
    ensures Burst(g) == [Data(g)]
  {
    assert g[..|g|] == g && g[|g|..] == "";
    assert Pieces("", RECV_MAX) == [];
  }

  lemma GetPlain(m: Message)
    requires m == Message("GET", "/b", "HTTP/1.1", [Field("Host", "h")], "")
    ensures Plain(m)
  {
    hide SplitTarget, ValuesOf, Joined, DeclaresBody, FieldLine;
    HostAlone("h");
    JoinedOne("h");
    assert DeclaresBody(m) by { NoBody(m); }
    assert m.version[..5] == "HTTP/";
  }

  lemma NoBody(m: Message)
    requires ValuesOf(m.fields, "content-length") == [] && m.body == ""
    ensures DeclaresBody(m)
  {
  }

  lemma HostAlone(host: string)
    ensures ValuesOf([Field("Host", host)], "host") == [host] && ValuesOf([Field("Host", host)], "content-length") == []
  {
    assert ToLower("Host") == "host" && |"content-length"| == 14;
    assert [Field("Host", host)][1..] == [];
  }

  lemma CrlfBytes(m: Message)
    requires m == Message("GET", "/b", "HTTP/1.1", [Field("Host", "h")], "")
    ensures Bytes(m) == "GET /b HTTP/1.1\r\nHost: h\r\n\r\n"
  {
    hide FieldLines, Block;
    OneField(Field("Host", "h"));
    assert FieldLine(Field("Host", "h")) == "Host: h";
    assert m.verb + " " + m.target + " " + m.version == "GET /b HTTP/1.1";
    assert ["GET /b HTTP/1.1"] + ["Host: h"] == ["GET /b HTTP/1.1", "Host: h"];
    TwoLineBlock("GET /b HTTP/1.1", "Host: h");
  }

  lemma OneField(f: Field)
    ensures FieldLines([f]) == [FieldLine(f)]
  {
    hide FieldLine;
    assert [f][1..] == [];
  }

  lemma TwoLineBlock(k: string, l: string)
    ensures Block([k, l]) == k + "\r\n" + (l + "\r\n" + "\r\n")
  {
    assert [k, l][1..] == [l] && [l][1..] == [];
    assert Block([]) == "\r\n";
    assert Block([l]) == l + "\r\n" + "\r\n";
  }
}
