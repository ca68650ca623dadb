/**
 What a shared cache key comes to: whenever two received requests have one key, some run answers the second with
 what the origin gave to the first.
 */
module SharedKey {
  import opened Text
  import opened Head
  import opened Net
  import opened HttpRequest
  import opened CacheKey
  import opened Serve
  import HttpResponse
  import Upstream
  import Printing
  import Fetching
  import Acl
  import Lru
  import opened Words

  // -------------------------------------------------------- runs of a worker

  /** What is known of a state: the worker 0, one shard, the log and the history. */
  datatype View = View(c: Lru.Cache<string, string>, p: Phase, log: seq<Line>, fetches: set<Fetch>)

  ghost predicate At(env: Env, s: State, i: nat, v: View) {
    && ValidCache(env, s) && i < |s.cache| && s.cache[i] == v.c && Lru.Valid(v.c)
    && |s.workers| >= 1 && s.workers[0] == v.p && s.log == v.log && s.fetches == v.fetches
  }

  ghost predicate RunAt(env: Env, start: State, run: seq<Step>, i: nat, v: View)
    requires ValidCache(env, start)
  {
    ValidRun(env, start, run) && At(env, End(env, start, run), i, v)
  }

  /** What is known after the worker acts. */
  function Acted(env: Env, v: View, a: Action): View
    requires Ready(env, v.p, a) && Lru.Valid(v.c)
  {
    View(NextShard(env, v.c, v.p, a), NextPhase(env, v.c, v.p, a), if a.WriteLog? then v.log + [v.p.line] else v.log,
         v.fetches + Fetches(env, v.p, a))
  }

  lemma ActAt(env: Env, s: State, i: nat, v: View, a: Action)
    requires At(env, s, i, v) && Ready(env, v.p, a) && (v.p.Admitted? || v.p.Forwarded? ==> ShardOf(env, Key(v.p.req)) == i)
    ensures Enabled(env, s, Step(0, a)) && At(env, Apply(env, s, Step(0, a)), i, Acted(env, v, a))
  {
    hide Pow2, ShardOf, Key, Lru.Valid, Lru.Get, Lru.Put, FindHeaderEnd, ParseRequest, ExpectedBytes, MayUseCache, VerdictOf, Kept,
      Upstream.ReadFrom, HttpResponse.ParseResponse, HttpResponse.Built;
  }

  lemma {:induction false} OneMore(env: Env, s: State, run: seq<Step>, st: Step)
    requires ValidCache(env, s) && ValidRun(env, s, run) && Enabled(env, End(env, s, run), st)
    ensures ValidRun(env, s, run + [st]) && End(env, s, run + [st]) == Apply(env, End(env, s, run), st)
    decreases |run|
  {
    hide Apply, Enabled;
    if run == [] {
      assert ([] + [st])[0] == st && ([] + [st])[1..] == [];
    } else {
      assert (run + [st])[0] == run[0] && (run + [st])[1..] == run[1..] + [st];
      OneMore(env, Apply(env, s, run[0]), run[1..], st);
    }
  }

  lemma Act(env: Env, start: State, run: seq<Step>, i: nat, v: View, a: Action) returns (more: seq<Step>)
    requires ValidCache(env, start) && RunAt(env, start, run, i, v)
    requires Ready(env, v.p, a) && (v.p.Admitted? || v.p.Forwarded? ==> ShardOf(env, Key(v.p.req)) == i)
    requires Lru.Valid(v.c)
    ensures RunAt(env, start, more, i, Acted(env, v, a))
  {
    hide Apply, Enabled, Ready, NextPhase, NextShard, Fetches, Acted, Pow2, ShardOf, Key, Lru.Valid, ValidRun, End;
    more := run + [Step(0, a)];
    ActAt(env, End(env, start, run), i, v, a);
    OneMore(env, start, run, Step(0, a));
  }

  /** A received request the cache may answer. */
  predicate MayBeCached(env: Env, raw: string) {
    var r := ParseRequest(raw);
    r.valid && |raw| >= ExpectedBytes(r) && VerdictOf(env, r) == Acl.Allow && MayUseCache(r)
  }

  /** The origin's answer, when it is one to be kept. */
  ghost predicate Answers(env: Env, raw: string, script: seq<Recv>, bytes: string) {
    var r := Upstream.ReadFrom(script, "", None, env.limits).0;
    r.Fetched? && r.raw == bytes && Kept(ParseRequest(raw), bytes)
  }

  /** Begun, admitted and looked up. */
  lemma LookUp(env: Env, start: State, run: seq<Step>, i: nat, v: View, raw: string) returns (more: seq<Step>)
    requires ValidCache(env, start) && RunAt(env, start, run, i, v) && v.p == Resting && Lru.Valid(v.c)
    requires MayBeCached(env, raw) && ShardOf(env, Key(ParseRequest(raw))) == i
    ensures var r := ParseRequest(raw);
            var (c, hit) := Lru.Get(v.c, Key(r));
            && Lru.Valid(c)
            && RunAt(env, start, more, i, v.(c := c, p := if hit.Some? then GotHit(r, hit.value) else Missed(r)))
  {
    hide RunAt, Pow2, ShardOf, Key, Lru.Valid, Lru.Get, Lru.Put, FindHeaderEnd, ParseRequest, ExpectedBytes, MayUseCache, VerdictOf, Kept;
    var r := ParseRequest(raw);
    more := Act(env, start, run, i, v, Begin(raw));
    assert v.fetches + {} == v.fetches;
    more := Act(env, start, more, i, v.(p := Counted(r)), CheckAcl);
    more := Act(env, start, more, i, v.(p := Admitted(r)), Lookup);
    GetItems(v.c, Key(r));
  }

  /** A hit, replied and logged. */
  lemma LogHit(env: Env, start: State, run: seq<Step>, i: nat, v: View, r: Request, bytes: string) returns (more: seq<Step>)
    requires ValidCache(env, start) && RunAt(env, start, run, i, v) && v.p == GotHit(r, bytes) && Lru.Valid(v.c)
    ensures var l := Line(r, HttpResponse.ParseResponse(bytes).status, |bytes|, HIT, bytes, FromCache);
            RunAt(env, start, more, i, v.(p := Resting, log := v.log + [l]))
  {
    hide RunAt, Pow2, ShardOf, Key, Lru.Valid, HttpResponse.ParseResponse;
    var l := Line(r, HttpResponse.ParseResponse(bytes).status, |bytes|, HIT, bytes, FromCache);
    assert v.fetches + {} == v.fetches;
    more := Act(env, start, run, i, v, ServeHit);
    more := Act(env, start, more, i, v.(p := Replying(l)), WriteLog);
  }

  /** A miss: fetched, counted, stored, replied and logged. */
  lemma FetchAndStore(env: Env, start: State, run: seq<Step>, i: nat, v: View, raw: string, script: seq<Recv>, bytes: string)
    returns (more: seq<Step>, l: Line)
    requires ValidCache(env, start) && RunAt(env, start, run, i, v) && v.p == Missed(ParseRequest(raw)) && Lru.Valid(v.c)
    requires Answers(env, raw, script, bytes) && ShardOf(env, Key(ParseRequest(raw))) == i
    ensures var r := ParseRequest(raw);
            var c := StoreIn(v.c, r, bytes);
            RunAt(env, start, more, i, View(c, Resting, v.log + [l], v.fetches + {Fetch(r, bytes)}))
  {
    hide RunAt, Pow2, ShardOf, Key, Lru.Valid, Lru.Put, StoreIn, ParseRequest, HttpResponse.ParseResponse, Kept, Upstream.ReadFrom;
    var r, status := ParseRequest(raw), Upstream.ReadFrom(script, "", None, env.limits).0.parsed.status;
    var v1 := v.(p := Fetched(r, bytes, status), fetches := v.fetches + {Fetch(r, bytes)});
    more := Act(env, start, run, i, v, Exchange(script, ""));
    assert v1.fetches + {} == v1.fetches;
    more := Act(env, start, more, i, v1, CountForward);
    more := Act(env, start, more, i, v1.(p := Forwarded(r, bytes, status)), Store);
    l := Line(r, status, |bytes|, MissState(r), bytes, Answered);
    more := Act(env, start, more, i, View(StoreIn(v.c, r, bytes), Replying(l), v.log, v1.fetches), WriteLog);
  }

  lemma FreshWorker(env: Env, workers: nat, perShard: nat, i: nat)
    requires workers >= 1 && i < Pow2(env.bits)
    ensures RunAt(env, Start(env, workers, perShard), [], i, View(Lru.Empty(perShard), Resting, [], {}))
  {
    hide Pow2;
  }

  lemma EmptyMisses(perShard: nat, k: string)
    ensures Lru.Get(Lru.Empty<string, string>(perShard), k).1 == None
  {
  }

  /**
   A shared key is a shared answer: whatever two requests are received, if both may use the cache and have one key, and
   the origin gives the first a response to be kept, then some run logs a HIT for the second with exactly those
   bytes, though nothing was ever fetched for it.
   */
  lemma SharedKeyHits(env: Env, workers: nat, perShard: nat, a: string, b: string, script: seq<Recv>, bytes: string)
    returns (run: seq<Step>)
    requires workers >= 1 && MayBeCached(env, a) && MayBeCached(env, b) && Key(ParseRequest(a)) == Key(ParseRequest(b))
    requires Answers(env, a, script, bytes)
    ensures ValidRun(env, Start(env, workers, perShard), run)
    ensures var s := End(env, Start(env, workers, perShard), run);
            && s.fetches == {Fetch(ParseRequest(a), bytes)}
            && |s.log| == 2 && s.log[1] == Line(ParseRequest(b), 200, |bytes|, HIT, bytes, FromCache)
  {
    hide Start, End, ValidRun, ValidCache, Pow2, ShardOf, Key, Lru.Valid, Lru.Get, Lru.Put, StoreIn, ParseRequest, MayBeCached, Answers;
    var start, i := Start(env, workers, perShard), ShardOf(env, Key(ParseRequest(a)));
    var v := View(Lru.Empty(perShard), Resting, [], {});
    FreshWorker(env, workers, perShard, i);
    EmptyMisses(perShard, Key(ParseRequest(a)));
    run := LookUp(env, start, [], i, v, a);
    var c := Lru.Get(v.c, Key(ParseRequest(a))).0;
    var l;
    run, l := FetchAndStore(env, start, run, i, v.(c := c, p := Missed(ParseRequest(a))), a, script, bytes);
    AnswerIsKept(env, a, script, bytes);
    StoredIsServed(c, ParseRequest(a), bytes);
    var c' := StoreIn(c, ParseRequest(a), bytes);
    var v' := View(c', Resting, [] + [l], {} + {Fetch(ParseRequest(a), bytes)});
    run := LookUp(env, start, run, i, v', b);
    var c'' := Lru.Get(c', Key(ParseRequest(b))).0;
    run := LogHit(env, start, run, i, v'.(c := c'', p := GotHit(ParseRequest(b), bytes)), ParseRequest(b), bytes);
  }

  lemma AnswerIsKept(env: Env, raw: string, script: seq<Recv>, bytes: string)
    requires Answers(env, raw, script, bytes)
    ensures Kept(ParseRequest(raw), bytes) && HttpResponse.ParseResponse(bytes).status == 200
  {
    hide Upstream.ReadFrom, ParseRequest, HttpResponse.ParseResponse;
  }

  // -------------------------------------------------------------- an instance

  /** A GET of two lines, as received. */
  lemma AskMayBeCached(env: Env, target: string, host: string)
    requires PlainWord(target) && PlainValue(host) && host != "" && !StartsWith(ToLower(target), "http://")
    requires VerdictOf(env, ParseRequest(Ask("GET", target, host))) == Acl.Allow
    ensures MayBeCached(env, Ask("GET", target, host))
  {
    hide ParseRequest, PrintHead, ValuesOf, PlainWord, PlainValue, Trimmed, ToLower, VerdictOf, StartsWith, KeepAliveOf, HostAndPath;
    var head := Ask("GET", target, host);
    assert head + "" == head;
    GetIsWord();
    AskParses("GET", target, host);
    HostFieldPlain(host);
    VersionPlain();
    OnlyHost(host);
    PrintParse("GET", target, HTTP11, [Field("Host", host)], "");
  }

  lemma GetIsWord()
    ensures PlainWord("GET")
  {
  }

  lemma OnlyHost(host: string)
    ensures ValuesOf([Field("Host", host)], "authorization") == [] && ValuesOf([Field("Host", host)], "content-length") == []
  {
    assert |ToLower("Host")| == 4 && |"authorization"| == 13 && |"content-length"| == 14;
    assert [Field("Host", host)][1..] == [];
  }

  const HELLO := "hello"

  /** An answer of the origin to such a GET: 200, a length and a body, all in one piece. */
  lemma PlainAnswer(env: Env, raw: string) returns (bytes: string)
    requires MayBeCached(env, raw) && env.limits.maxHeader >= 1000 && env.limits.maxBody >= 1000
    ensures Answers(env, raw, [Data(bytes)], bytes)
  {
    hide ParseRequest, Fetching.HeadOf, Fetching.Plain, Fetching.SaysChunked, Fetching.SaysLength, Upstream.ReadFrom, HttpResponse.ParseResponse,
      HttpResponse.IsCacheable, Fetching.PiecesOf;
    var t := Fetching.Top("HTTP/1.1", 200, "OK", [Field("Content-Length", "5")]);
    bytes := Fetching.HeadOf(t) + HELLO;
    TopPlain(t);
    ShortHead(t);
    OnePiece(bytes);
    assert [Data(bytes)] + [] == [Data(bytes)];
    Fetching.LengthResponseRead(t, HELLO, [Data(bytes)], [], env.limits);
    AnswerKept(ParseRequest(raw), t);
  }

  lemma OnePiece(bytes: string)
    requires bytes != ""
    ensures Fetching.PiecesOf([Data(bytes)], bytes)
  {
    ReceivedCons(Data(bytes), []);
    ReceivedNone();
    assert [Data(bytes)] + [] == [Data(bytes)] && bytes + "" == bytes;
  }

  lemma OnlyLength(fs: seq<Field>)
    requires fs == [Field("Content-Length", "5")]
    ensures ValuesOf(fs, Printing.CONTENT_LENGTH) == ["5"] && ValuesOf(fs, Printing.TRANSFER_ENCODING) == []
    ensures ValuesOf(fs, Printing.CACHE_CONTROL) == [] && ValuesOf(fs, Printing.SET_COOKIE) == []
  {
    assert ToLower("Content-Length") == Printing.CONTENT_LENGTH && |Printing.CONTENT_LENGTH| == 14;
    assert |Printing.TRANSFER_ENCODING| == 17 && |Printing.CACHE_CONTROL| == 13 && |Printing.SET_COOKIE| == 10;
    hide ToLower;
    assert fs[1..] == [];
  }

  lemma TopPlain(t: Fetching.Top)
    requires t == Fetching.Top("HTTP/1.1", 200, "OK", [Field("Content-Length", "5")])
    ensures Fetching.Plain(t) && !Fetching.SaysChunked(t) && Fetching.SaysLength(t, |HELLO|)
  {
    assert Decimal(5) == "5";
    hide ValuesOf;
    OnlyLength(t.fields);
  }

  lemma ShortHead(t: Fetching.Top)
    requires t == Fetching.Top("HTTP/1.1", 200, "OK", [Field("Content-Length", "5")])
    ensures 0 < |Fetching.HeadOf(t)| <= 100
  {
    assert Decimal(20) == "20";
    assert Decimal(200) == "200";
    hide Decimal;
    assert FieldLine(t.fields[0]) == "Content-Length: 5";
    hide FieldLine;
    assert FieldLines(t.fields[1..]) == [];
    assert FieldLines(t.fields) == ["Content-Length: 5"];
    hide FieldLines;
    assert ["HTTP/1.1 200 OK"] + ["Content-Length: 5"] == ["HTTP/1.1 200 OK", "Content-Length: 5"];
    TwoLines("HTTP/1.1 200 OK", "Content-Length: 5");
  }

  lemma TwoLines(k: string, l: string)
    ensures |Block([k, l])| == |k| + |l| + 6
  {
    assert [k, l][1..] == [l] && [l][1..] == [];
    assert Block([]) == "\r\n";
    assert Block([l]) == l + "\r\n" + "\r\n";
  }

  lemma AnswerKept(req: Request, t: Fetching.Top)
    requires t == Fetching.Top("HTTP/1.1", 200, "OK", [Field("Content-Length", "5")]) && MayUseCache(req) && Fetching.Plain(t)
    ensures Kept(req, Fetching.HeadOf(t) + HELLO)
  {
    hide HttpResponse.ParseResponse, HttpResponse.IsCacheable, Decimal, Printing.PrintResponseHead, ValuesOf, PlainWord, PlainFields;
    OnlyLength(t.fields);
    Printing.CacheableAsPrinted(req, t.proto, t.status, t.reason, t.fields, HELLO);
  }

  /** A HIT across hosts: what `a/b` gave for `/c` is logged as a HIT for `/b/c` on `a`. */
  lemma HitAcrossHosts(env: Env, workers: nat, perShard: nat) returns (run: seq<Step>, bytes: string)
    requires workers >= 1 && env.rules == [] && env.policy == Acl.Allow
    requires env.limits.maxHeader >= 1000 && env.limits.maxBody >= 1000
    ensures ValidRun(env, Start(env, workers, perShard), run)
    ensures var x, y := ParseRequest(Ask("GET", "/c", "a/b")), ParseRequest(Ask("GET", "/b/c", "a"));
            var s := End(env, Start(env, workers, perShard), run);
            && s.fetches == {Fetch(x, bytes)} && ToLower(x.host) != ToLower(y.host)
            && |s.log| == 2 && s.log[1] == Line(y, 200, |bytes|, HIT, bytes, FromCache)
  {
    hide Start, End, ValidRun, ValidCache, Key, ParseRequest, MayBeCached, Answers, Ask, VerdictOf;
    var a, b := Ask("GET", "/c", "a/b"), Ask("GET", "/b/c", "a");
    KeyCollision();
    NoRules(env, ParseRequest(a));
    NoRules(env, ParseRequest(b));
    PathsPlain();
    AskMayBeCached(env, "/c", "a/b");
    AskMayBeCached(env, "/b/c", "a");
    bytes := PlainAnswer(env, a);
    run := SharedKeyHits(env, workers, perShard, a, b, [Data(bytes)], bytes);
  }

  lemma NoRules(env: Env, r: Request)
    requires env.rules == [] && env.policy == Acl.Allow
    ensures VerdictOf(env, r) == Acl.Allow
  {
  }

  lemma PathsPlain()
    ensures PlainWord("/c") && PlainWord("/b/c") && PlainValue("a/b") && PlainValue("a")
    ensures !StartsWith(ToLower("/c"), "http://") && !StartsWith(ToLower("/b/c"), "http://")
  {
    assert ToLower("/c")[0] == '/' && ToLower("/b/c")[0] == '/';
  }
}
