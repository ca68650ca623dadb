/**
 Where cuts do matter: a request whose head ends in bare LFs, followed by one that ends in CRLFs.
 Received in two pieces they are two requests; received in one, the first swallows the second.
 */
module BareLf {
  import opened Text
  import opened Head
  import opened Net
  import opened HttpRequest
  import opened Cuts
  import opened ClientStream
  import opened LfLines
  import Pipeline

  const HTTP11 := "HTTP/1.1"

  /** A request without a body, its two lines and its empty line ended by LF alone. */
  datatype Ask = Ask(verb: string, target: string, host: string)

  function FirstLine(a: Ask): string { a.verb + " " + a.target + " " + HTTP11 }

  function HostLine(a: Ask): string { FieldLine(Field("Host", a.host)) }

  function HeadOf(a: Ask): string { LfHead(FirstLine(a), HostLine(a)) }

  predicate Plain(a: Ask) {
    && PlainWord(a.verb) && PlainWord(a.target) && PlainValue(a.host) && a.host != ""
    && NoCr(a.verb) && NoCr(a.target) && NoCr(a.host)
  }

  /** The request that is parsed from it. */
  function RequestOf(a: Ask): Request {
    Finish(HttpRequest.BLANK.(method_ := a.verb, target := a.target, version := HTTP11), map["host" := a.host])
  }

  // ---------------------------------------------------------- how it is read

  lemma LinesPlain(a: Ask)
    requires Plain(a)
    ensures PlainPair(FirstLine(a), HostLine(a))
  {
  }

  lemma HostField(host: string)
    requires PlainValue(host)
    ensures FieldOf(FieldLine(Field("Host", host))) == Some(("host", host))
  {
    hide FieldOf, FieldLine;
    FieldLineParses(Field("Host", host));
    assert ToLower("Host") == "host";
  }

  lemma LfHeadParses(a: Ask)
    requires Plain(a)
    ensures ParseHead(HeadOf(a)) == RequestOf(a).(headerBytes := |HeadOf(a)|)
  {
    hide LfHead, FirstLine, HostLine, Lines, ParseLine, ReadFields, Finish, Plain, FieldOf, StripCr;
    LinesPlain(a);
    LinesOfLfHead(FirstLine(a), HostLine(a));
    NoCrNoStrip(FirstLine(a));
    NoCrNoStrip(HostLine(a));
    var n := |HeadOf(a)|;
    var r := HttpRequest.BLANK.(method_ := a.verb, target := a.target, version := HTTP11);
    RequestLine(a, n);
    HostOf(a);
    ReadOne(HostLine(a), "host", a.host, true);
    assert [FirstLine(a), HostLine(a), ""][1..] == [HostLine(a), ""];
    FinishIgnoresSize(r, map["host" := a.host], n);
  }

  lemma HostOf(a: Ask)
    requires Plain(a)
    ensures FieldOf(HostLine(a)) == Some(("host", a.host))
  {
    HostField(a.host);
  }

  lemma RequestLine(a: Ask, n: nat)
    requires Plain(a)
    ensures ParseLine(FirstLine(a), HttpRequest.BLANK.(headerBytes := n)) ==
            HttpRequest.BLANK.(method_ := a.verb, target := a.target, version := HTTP11, headerBytes := n)
  {
    hide ParseLine;
    assert Trimmed(HTTP11) && HTTP11[..5] == "HTTP/";
    RequestLineParses(a.verb, a.target, HTTP11, HttpRequest.BLANK.(headerBytes := n));
  }

  /** It is a valid request that declares no body. */
  lemma RequestIsValid(a: Ask)
    requires Plain(a)
    ensures RequestOf(a).valid && RequestOf(a).contentLength == -1
    ensures ExpectedBytes(RequestOf(a).(headerBytes := |HeadOf(a)|)) == |HeadOf(a)|
  {
    hide HeadOf, SplitTarget, KeepAliveOf;
    assert "content-length" !in map["host" := a.host];
  }

  // -------------------------------------------------------- what is decided

  /** Alone it is served as soon as it has arrived. */
  lemma NextAlone(a: Ask, maxHeader: nat)
    requires Plain(a)
    ensures NextOf(HeadOf(a), maxHeader) == Serve(Served(Seen(RequestOf(a)), HeadOf(a)), |HeadOf(a)|)
  {
    hide LfHead, Plain, ParseHead, RequestOf, NextOf, ExpectedBytes, FindHeaderEnd, FirstLine, HostLine;
    LinesPlain(a);
    FoundAlone(FirstLine(a), HostLine(a));
    LfHeadParses(a);
    RequestIsValid(a);
    assert HeadOf(a)[..|HeadOf(a)|] == HeadOf(a);
    NextWithHead(HeadOf(a), |HeadOf(a)|, maxHeader);
  }

  /** Together with what follows it is one request whose head reaches to the CRLFCRLF. */
  lemma NextTogether(a: Ask, b: string, maxHeader: nat)
    requires Plain(a) && EndsOnce(b)
    ensures NextOf(HeadOf(a) + b, maxHeader) == Serve(Served(Seen(RequestOf(a)), HeadOf(a) + b), |HeadOf(a) + b|)
  {
    hide LfHead, Find, Plain, ParseHead, RequestOf, NextOf, Unambiguous, FirstLine, HostLine, EndsOnce;
    var s, n := HeadOf(a) + b, |HeadOf(a)|;
    LinesPlain(a);
    Ambiguous(FirstLine(a), HostLine(a), b);
    TwoHeads(s);
    assert s[..n] == HeadOf(a) && s[..|s|] == s;
    LfHeadParses(a);
    RequestIsValid(a);
    NextWithHead(s, |s|, maxHeader);
  }

  // --------------------------------------------------------------- the result

  /** The terminator of a printed message without a body. */
  lemma MessageEnds(m: Pipeline.Message)
    requires Pipeline.Plain(m) && m.body == ""
    ensures Pipeline.Bytes(m) == Pipeline.HeadOf(m) && EndsOnce(Pipeline.Bytes(m))
  {
    hide Find, Pipeline.Plain, Pipeline.EventOf, MatchAt, FieldLines, Block, FindHeaderEnd, NextOf, Unambiguous;
    var ls := [m.verb + " " + m.target + " " + m.version] + FieldLines(m.fields);
    var b := Pipeline.HeadOf(m);
    assert b == Block(ls) && Pipeline.Bytes(m) == b;
    BlockEnd(ls);
    Pipeline.FirstMessage(m, "", 0);
    assert b + "" == b;
    EndOfAll(b);
  }

  lemma EndOfAll(b: string)
    requires FindHeaderEnd(b) == Some(|b|) && |b| >= 4 && CrLfCrLfAt(b, |b| - 4)
    ensures Find(b, CRLFCRLF, 0).Some? && Find(b, CRLFCRLF, 0).value + 4 == |b|
  {
    hide Find, MatchAt;
    TerminatorBytes(b, |b| - 4);
  }

  /**
   Two deliveries of one stream, different requests. In two pieces the proxy serves both requests; in one piece it
   serves the first alone, and forwards the bytes of the second as if they were part of its head.
   */
  lemma BareLfEventsDependOnCut(a: Ask, m: Pipeline.Message, keep: nat -> bool, limits: Limits)
    requires Plain(a) && Pipeline.Plain(m) && m.body == "" && keep(0)
    requires |HeadOf(a) + Pipeline.Bytes(m)| <= limits.maxHeader + limits.maxBody
    ensures var s := HeadOf(a) + Pipeline.Bytes(m);
            && Delivers(Burst(s), s) && Delivers(CutAt(s, |HeadOf(a)|), s)
            && ConnectionFrom(Burst(s), "", 0, keep, limits) == [Served(Seen(RequestOf(a)), s)]
            && ConnectionFrom(CutAt(s, |HeadOf(a)|), "", 0, keep, limits) ==
               [Served(Seen(RequestOf(a)), HeadOf(a)), Pipeline.EventOf(m)]
  {
    hide HeadOf, RequestOf, Plain, Pipeline.Plain, Pipeline.Bytes, Pipeline.EventOf, NextOf, ConnectionFrom, Delivers, Find, CutAt, Burst;
    var x, b := HeadOf(a), Pipeline.Bytes(m);
    var s := x + b;
    MessageEnds(m);
    NextTogether(a, b, limits.maxHeader);
    Pipeline.EmptyWaits(limits.maxHeader);
    assert s[|s|..] == "" && x[|x|..] == "" && b[|b|..] == "";
    BurstDelivers(s);
    AllAtOnce(s, keep, limits);
    CutDelivers(s, |x|);
    NextAlone(a, limits.maxHeader);
    Pipeline.FirstMessage(m, "", limits.maxHeader);
    assert b + "" == b;
    Pipeline.ServeOne(x, 0, keep, limits.maxHeader);
    Pipeline.ServeOne(b, 1, keep, limits.maxHeader);
    Pipeline.ServeOne(s, 0, keep, limits.maxHeader);
    TwoPieces(x, b, keep, limits);
  }

  /** Two pieces, each one whole request: both are served. */
  lemma TwoPieces(x: string, b: string, keep: nat -> bool, limits: Limits)
    requires keep(0) && |x + b| <= limits.maxHeader + limits.maxBody
    requires NextOf(x, limits.maxHeader).Serve? && NextOf(x, limits.maxHeader).need == |x|
    requires NextOf(b, limits.maxHeader).Serve? && NextOf(b, limits.maxHeader).need == |b|
    ensures ConnectionFrom(CutAt(x + b, |x|), "", 0, keep, limits) ==
            [NextOf(x, limits.maxHeader).served, NextOf(b, limits.maxHeader).served]
  {
    hide NextOf, ServeAll, Ahead, DrainFrom, Burst, CutAt;
    var cap, script := limits.maxHeader + limits.maxBody, CutAt(x + b, |x|);
    assert (x + b)[..|x|] == x && (x + b)[|x|..] == b;
    DrainCut(x + b, |x|, cap);
    DrainOne(b, cap);
    DrainNothing("", cap);
    Pipeline.ServeOne(x, 0, keep, limits.maxHeader);
    Pipeline.ServeOne(b, 1, keep, limits.maxHeader);
    Pipeline.EmptyWalk(2, keep, limits.maxHeader);
    var e, f := NextOf(x, limits.maxHeader).served, NextOf(b, limits.maxHeader).served;
    assert RoundOf(script, "", 0, keep, limits) == Handled([e], true, "", 1, Burst(b));
    assert RoundOf(Burst(b), "", 1, keep, limits) == Handled([f], keep(1), "", 2, []);
    assert keep(1) ==> RoundOf([], "", 2, keep, limits) == Handled([], true, "", 2, []);
    hide RoundOf;
    if keep(1) { assert HandleFrom([], "", 2, keep, limits) == RoundOf([], "", 2, keep, limits); }
    assert HandleFrom(Burst(b), "", 1, keep, limits).events == [f];
    assert HandleFrom(Burst(b), "", 1, keep, limits).rest == [];
    assert HandleFrom(script, "", 0, keep, limits).events == [e, f];
    assert HandleFrom(script, "", 0, keep, limits).rest == [];
  }

  // -------------------------------------------------------------- an instance

  /** Two GET requests on one connection, the first typed by hand and the second sent by a program. */
  lemma TwoGets(keep: nat -> bool, limits: Limits)
    requires keep(0) && limits.maxHeader >= 1000
    ensures var s, k := "GET /a HTTP/1.1\nHost: h\n\n" + "GET /b HTTP/1.1\r\nHost: h\r\n\r\n", 25;
            && k <= |s| && Delivers(Burst(s), s) && Delivers(CutAt(s, k), s)
            && |ConnectionFrom(Burst(s), "", 0, keep, limits)| == 1
            && |ConnectionFrom(CutAt(s, k), "", 0, keep, limits)| == 2
  {
    hide ConnectionFrom, Delivers, CutAt, Burst;
    var a, m := Ask("GET", "/a", "h"), Pipeline.Message("GET", "/b", "HTTP/1.1", [Field("Host", "h")], "");
    GetPlain(a);
    Pipeline.GetPlain(m);
    LfBytes(a);
    Pipeline.CrlfBytes(m);
    BareLfEventsDependOnCut(a, m, keep, limits);
  }

  lemma GetPlain(a: Ask)
    requires a == Ask("GET", "/a", "h")
    ensures Plain(a)
  {
  }

  lemma LfBytes(a: Ask)
    requires a == Ask("GET", "/a", "h")
    ensures HeadOf(a) == "GET /a HTTP/1.1\nHost: h\n\n" && |HeadOf(a)| == 25
  {
  }
}
