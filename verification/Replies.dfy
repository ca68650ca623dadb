/**
 What clients get: every log line is of one of five kinds, each with exactly the bytes that kind calls for;
 every request begun gets exactly one line; and the counters are the numbers of lines of each kind.
 */
module Replies {
  import opened Text
  import opened Head
  import opened Net
  import opened HttpRequest
  import opened CacheKey
  import opened Serve
  import HttpResponse
  import Upstream
  import Acl
  import Lru
  import opened Words

  // ------------------------------------------------------------ what is sent

  /** The line of a worker about to log is in order, by the history as it is before. */
  lemma AboutToLog(env: Env, s: State, st: Step)
    requires Inv(env, s) && Enabled(env, s, st) && s.workers[st.w].Replying?
    ensures LineOk(env, s.fetches, s.workers[st.w].line)
  {
    hide ValidCache, CacheSourced, LogOk, CountsOk, LineOk, Ready;
    assert PhaseOk(env, s.fetches, s.workers[st.w]);
  }

  /** The step that wrote a line, and the line in order by the history before that step. */
  lemma {:induction false} LineWritten(env: Env, workers: nat, perShard: nat, run: seq<Step>, l: Line) returns (i: nat)
    requires ValidRun(env, Start(env, workers, perShard), run) && l in End(env, Start(env, workers, perShard), run).log
    ensures i < |run| && run[i].a.WriteLog? && ValidRun(env, Start(env, workers, perShard), run[..i])
    ensures LineOk(env, End(env, Start(env, workers, perShard), run[..i]).fetches, l)
    decreases |run|
  {
    hide Inv, LineOk, Apply, Enabled, ValidCache, Start, End, ValidRun;
    var start := Start(env, workers, perShard);
    if run == [] {
      NothingLogged(env, workers, perShard);
      assert false;
    } else {
      var prev, st := run[..|run| - 1], run[|run| - 1];
      assert run == prev + [st];
      RunSnoc(env, start, prev, st);
      var s := End(env, start, prev);
      OneActs(env, s, st);
      if l in s.log {
        i := LineWritten(env, workers, perShard, prev, l);
        assert run[..i] == prev[..i] && run[i] == prev[i];
      } else {
        i := |prev|;
        assert run[..i] == prev && run[i] == st;
        StartInv(env, workers, perShard);
        RunKeeps(env, start, prev);
        WritesLine(env, s, st);
        AboutToLog(env, s, st);
      }
    }
  }

  lemma NothingLogged(env: Env, workers: nat, perShard: nat)
    ensures ValidRun(env, Start(env, workers, perShard), []) && End(env, Start(env, workers, perShard), []).log == []
  {
  }

  lemma WritesLine(env: Env, s: State, st: Step)
    requires ValidCache(env, s) && Enabled(env, s, st)
    ensures st.a.WriteLog? ==> s.workers[st.w].Replying? && Apply(env, s, st).log == s.log + [s.workers[st.w].line]
    ensures !st.a.WriteLog? ==> Apply(env, s, st).log == s.log
  {
    hide NextPhase, NextShard, Fetches, ShardIn, Pow2, Lru.Valid, FindHeaderEnd, ParseRequest, ExpectedBytes, MayUseCache;
  }

  /** A request the cache may answer: GET or HEAD, without Authorization. */
  predicate Safe(req: Request) { (req.method_ == "GET" || req.method_ == "HEAD") && "authorization" !in req.headers }

  /** The bytes are the proxy's own reply with this status, reason and text, and close the connection unless `keep`. */
  predicate Own(l: Line, status: nat, reason: string, body: string, keep: bool) {
    l.status == status && l.sent == HttpResponse.Built(status, reason, body, keep, "text/plain")
  }

  /**
   Over every run, what was sent for a line in the log, by the branch it comes from: a stored response, to a GET or HEAD
   without Authorization; the 403 page; a 400 or a 502 with its text; or the very bytes the origin had given to this
   request before the line was written, under their own status. A good request gets the 403 exactly when it is denied.
   */
  lemma EveryLine(env: Env, workers: nat, perShard: nat, run: seq<Step>, l: Line) returns (i: nat, text: string)
    requires ValidRun(env, Start(env, workers, perShard), run) && l in End(env, Start(env, workers, perShard), run).log
    ensures i < |run| && run[i].a.WriteLog? && ValidRun(env, Start(env, workers, perShard), run[..i])
    ensures l.status == HttpResponse.ParseResponse(l.sent).status && l.bytes == |l.sent|
    ensures l.req.valid ==> (l.kind.Denied? <==> VerdictOf(env, l.req) == Acl.Deny)
    ensures l.req.valid <==> !l.kind.BadRequest?
    ensures l.cache.HIT? <==> l.kind.FromCache?
    ensures l.kind.FromCache? ==>
              && Sourced(env, End(env, Start(env, workers, perShard), run[..i]).fetches, Key(l.req), l.sent)
              && l.status == 200 && Safe(l.req)
    ensures l.kind.Answered? || l.kind.Unanswered? ==> l.cache == if Safe(l.req) then MISS else BYPASS
    ensures l.kind.Denied? ==> Own(l, 403, "Forbidden", "403 Forbidden: blocked by proxy policy\n", l.req.keepAlive)
    ensures l.kind.BadRequest? ==> Own(l, 400, "Bad Request", "400 Bad Request: " + text + "\n", false)
    ensures l.kind.Unanswered? ==> Own(l, 502, "Bad Gateway", "502 Bad Gateway: " + text + "\n", false)
    ensures l.kind.Answered? ==> Fetch(l.req, l.sent) in End(env, Start(env, workers, perShard), run[..i]).fetches
  {
    hide Start, End, ValidRun, ValidCache, LineOk;
    i := LineWritten(env, workers, perShard, run, l);
    text := LineMeans(env, End(env, Start(env, workers, perShard), run[..i]).fetches, l);
  }

  lemma LineMeans(env: Env, fetches: set<Fetch>, l: Line) returns (text: string)
    requires LineOk(env, fetches, l)
    ensures l.status == HttpResponse.ParseResponse(l.sent).status && l.bytes == |l.sent|
    ensures l.req.valid ==> (l.kind.Denied? <==> VerdictOf(env, l.req) == Acl.Deny)
    ensures l.req.valid <==> !l.kind.BadRequest?
    ensures l.cache.HIT? <==> l.kind.FromCache?
    ensures l.kind.FromCache? ==> Sourced(env, fetches, Key(l.req), l.sent) && l.status == 200 && Safe(l.req)
    ensures l.kind.Answered? || l.kind.Unanswered? ==> l.cache == if Safe(l.req) then MISS else BYPASS
    ensures l.kind.Denied? ==> Own(l, 403, "Forbidden", "403 Forbidden: blocked by proxy policy\n", l.req.keepAlive)
    ensures l.kind.BadRequest? ==> Own(l, 400, "Bad Request", "400 Bad Request: " + text + "\n", false)
    ensures l.kind.Unanswered? ==> Own(l, 502, "Bad Gateway", "502 Bad Gateway: " + text + "\n", false)
    ensures l.kind.Answered? ==> Fetch(l.req, l.sent) in fetches
  {
    hide HttpResponse.ParseResponse, HttpResponse.Built, VerdictOf, Sourced, NoByte, Key;
    text := "";
    if l.kind.BadRequest? {
      text :| |text| < MAX_TEXT
              && l.sent == HttpResponse.Built(400, "Bad Request", "400 Bad Request: " + text + "\n", false, "text/plain");
    } else if l.kind.Unanswered? {
      text :| |text| < MAX_TEXT
              && l.sent == HttpResponse.Built(502, "Bad Gateway", "502 Bad Gateway: " + text + "\n", false, "text/plain");
    }
  }

  // -------------------------------------------------------- how many of each

  /** In every interleaving each counter is the number of lines of its kind, those still to be logged aside. */
  lemma KindsCounted(env: Env, workers: nat, perShard: nat, run: seq<Step>)
    requires ValidRun(env, Start(env, workers, perShard), run)
    ensures var s := End(env, Start(env, workers, perShard), run);
            && (forall k :: LinesOf(s.log, k) + Tally(s.workers, Of(k)) == CounterOf(s, k))
            && ((forall w :: 0 <= w < |s.workers| ==> s.workers[w].Resting?) ==>
                  && LinesOf(s.log, FromCache) == s.cacheServed && LinesOf(s.log, Denied) == s.denied
                  && LinesOf(s.log, Answered) == s.forwarded && LinesOf(s.log, Unanswered) == s.upstreamErrors
                  && LinesOf(s.log, BadRequest) == s.malformed)
  {
    hide Start, End, ValidRun, ValidCache, CacheSourced, WorkersOk, LogOk, Tally, Hits, LinesOf;
    StartInv(env, workers, perShard);
    RunKeeps(env, Start(env, workers, perShard), run);
    var s := End(env, Start(env, workers, perShard), run);
    assert CountsOk(s);
    if forall w :: 0 <= w < |s.workers| ==> s.workers[w].Resting? {
      forall k ensures Tally(s.workers, Of(k)) == 0 { TallyResting(s.workers, Of(k)); }
      assert CounterOf(s, Denied) == s.denied;
    }
  }

  // ------------------------------------------------ one line for each request

  /** The requests that the steps of a run begin, by their bytes alone. */
  function Begun(run: seq<Step>): multiset<Request>
    decreases |run|
  {
    if run == [] then multiset{} else Begins(run[|run| - 1].a) + Begun(run[..|run| - 1])
  }

  function Begins(a: Action): multiset<Request> {
    match a
    case Begin(raw) => multiset{ParseRequest(raw)}
    case Reject(raw, _) => multiset{ParseRequest(raw)}
    case _ => multiset{}
  }

  /** The request a worker has in hand. */
  function HandOf(p: Phase): multiset<Request> {
    if p.Resting? then multiset{} else if p.Replying? then multiset{p.line.req} else multiset{p.req}
  }

  function InHand(ws: seq<Phase>): multiset<Request> {
    if ws == [] then multiset{} else InHand(ws[..|ws| - 1]) + HandOf(ws[|ws| - 1])
  }

  function Logged(log: seq<Line>): multiset<Request> {
    if log == [] then multiset{} else Logged(log[..|log| - 1]) + multiset{log[|log| - 1].req}
  }

  lemma {:induction false} HandUpdate(ws: seq<Phase>, w: nat, p: Phase)
    requires w < |ws|
    ensures InHand(ws[w := p]) + HandOf(ws[w]) == InHand(ws) + HandOf(p)
  {
    var n := |ws| - 1;
    hide HandOf;
    if w == n {
      assert ws[w := p][..n] == ws[..n];
    } else {
      assert ws[w := p][..n] == ws[..n][w := p];
      HandUpdate(ws[..n], w, p);
      AddSame(InHand(ws[..n][w := p]), HandOf(ws[w]), InHand(ws[..n]), HandOf(p), HandOf(ws[n]));
    }
  }

  lemma AddSame(a: multiset<Request>, h: multiset<Request>, b: multiset<Request>, h': multiset<Request>, n: multiset<Request>)
    requires a + h == b + h'
    ensures (a + n) + h == (b + n) + h'
  {
    forall x ensures ((a + n) + h)[x] == ((b + n) + h')[x] { assert (a + h)[x] == (b + h')[x]; }
  }

  lemma LoggedMore(log: seq<Line>, l: Line)
    ensures Logged(log + [l]) == Logged(log) + multiset{l.req}
  {
    assert (log + [l])[..|log|] == log;
  }

  /** The acting worker keeps its request in hand until it logs it. */
  lemma HandKeeps(env: Env, c: Lru.Cache<string, string>, p: Phase, a: Action)
    requires Ready(env, p, a)
    ensures a.WriteLog? ==> p.Replying?
    ensures HandOf(NextPhase(env, c, p, a)) + (if a.WriteLog? then multiset{p.line.req} else multiset{}) == HandOf(p) + Begins(a)
  {
    hide VerdictOf, MayUseCache, ParseRequest, FindHeaderEnd, ExpectedBytes, HandOf, NextPhase;
    if a.Begin? || a.Reject? || a.RejectHead? || a.WriteLog? {
      HandBegins(env, c, p, a);
    } else if a.CheckAcl? || a.Lookup? || a.ServeHit? {
      HandLooks(env, c, p, a);
    } else {
      HandFetches(env, c, p, a);
    }
  }

  lemma HandBegins(env: Env, c: Lru.Cache<string, string>, p: Phase, a: Action)
    requires Ready(env, p, a) && (a.Begin? || a.Reject? || a.RejectHead? || a.WriteLog?)
    ensures HandOf(NextPhase(env, c, p, a)) + (if a.WriteLog? then multiset{p.line.req} else multiset{}) == HandOf(p) + Begins(a)
  {
    hide HttpResponse.Built, ParseRequest, FindHeaderEnd, ExpectedBytes;
  }

  lemma HandLooks(env: Env, c: Lru.Cache<string, string>, p: Phase, a: Action)
    requires Ready(env, p, a) && (a.CheckAcl? || a.Lookup? || a.ServeHit?)
    ensures HandOf(NextPhase(env, c, p, a)) == HandOf(p)
  {
    hide VerdictOf, MayUseCache, HttpResponse.ParseResponse, HttpResponse.Built, Lru.Get, Key;
  }

  lemma HandFetches(env: Env, c: Lru.Cache<string, string>, p: Phase, a: Action)
    requires Ready(env, p, a) && (a.Exchange? || a.Unreachable? || a.CountError? || a.CountForward? || a.Store?)
    ensures HandOf(NextPhase(env, c, p, a)) == HandOf(p)
  {
    hide MayUseCache, HttpResponse.ParseResponse, HttpResponse.Built, Upstream.ReadFrom, Key;
  }

  lemma StepBegins(env: Env, s: State, st: Step)
    requires ValidCache(env, s) && Enabled(env, s, st)
    ensures var t := Apply(env, s, st); Logged(t.log) + InHand(t.workers) == Logged(s.log) + InHand(s.workers) + Begins(st.a)
  {
    hide Ready, NextPhase, NextShard, ShardIn, Fetches, Lru.Valid, Pow2, Begins, HandOf, InHand, Logged;
    var p, i := s.workers[st.w], ShardIn(env, s.workers[st.w]);
    var p' := NextPhase(env, s.cache[i], p, st.a);
    HandKeeps(env, s.cache[i], p, st.a);
    HandUpdate(s.workers, st.w, p');
    if st.a.WriteLog? { LoggedMore(s.log, p.line); }
    var l := if st.a.WriteLog? then multiset{p.line.req} else multiset{};
    WritesLine(env, s, st);
    Cancel(Logged(s.log), InHand(s.workers[st.w := p']), InHand(s.workers), HandOf(p), HandOf(p'), Begins(st.a), l);
    assert Logged(Apply(env, s, st).log) == Logged(s.log) + l;
  }

  lemma Cancel(o: multiset<Request>, a: multiset<Request>, b: multiset<Request>, h: multiset<Request>, h': multiset<Request>,
               n: multiset<Request>, l: multiset<Request>)
    requires a + h == b + h' && h' + l == h + n
    ensures (o + l) + a == o + b + n
  {
    forall x ensures ((o + l) + a)[x] == (o + b + n)[x] {
      assert (a + h)[x] == (b + h')[x] && (h' + l)[x] == (h + n)[x];
    }
  }

  lemma {:induction false} RestingHands(ws: seq<Phase>)
    requires forall w :: 0 <= w < |ws| ==> ws[w].Resting?
    ensures InHand(ws) == multiset{}
  {
    if ws != [] { RestingHands(ws[..|ws| - 1]); }
  }

  /** Over every run the requests begun are those logged and those in hand, each once: no line is lost, made up or given to another request. */
  lemma {:induction false} OneLineEach(env: Env, workers: nat, perShard: nat, run: seq<Step>)
    requires ValidRun(env, Start(env, workers, perShard), run)
    ensures var s := End(env, Start(env, workers, perShard), run);
            && Logged(s.log) + InHand(s.workers) == Begun(run)
            && ((forall w :: 0 <= w < |s.workers| ==> s.workers[w].Resting?) ==> Logged(s.log) == Begun(run))
    decreases |run|
  {
    hide Apply, Enabled, ValidCache, Logged, InHand, Begins;
    var start := Start(env, workers, perShard);
    if run == [] {
      NothingBegun(env, workers, perShard);
    } else {
      var prev, st := run[..|run| - 1], run[|run| - 1];
      assert run == prev + [st];
      RunSnoc(env, start, prev, st);
      OneLineEach(env, workers, perShard, prev);
      hide Start, End, ValidRun;
      StepBegins(env, End(env, start, prev), st);
    }
    var s := End(env, start, run);
    if forall w :: 0 <= w < |s.workers| ==> s.workers[w].Resting? { RestingHands(s.workers); }
  }

  lemma NothingBegun(env: Env, workers: nat, perShard: nat)
    ensures var s := Start(env, workers, perShard); Logged(s.log) == multiset{} && InHand(s.workers) == multiset{}
  {
    hide Pow2;
    RestingHands(Start(env, workers, perShard).workers);
  }

  // ---------------------------------------------------- exchanges with origins

  /** The step is the exchange in which the origin gave these bytes to this request. */
  predicate Brings(env: Env, s: State, st: Step, f: Fetch) {
    && st.a.Exchange? && st.w < |s.workers|
    && (s.workers[st.w] == Missed(f.req) || s.workers[st.w] == Admitted(f.req))
    && var r := Upstream.ReadFrom(st.a.script, "", None, env.limits).0; r.Fetched? && r.raw == f.raw
  }

  ghost predicate BroughtIn(env: Env, start: State, run: seq<Step>, f: Fetch)
    requires ValidCache(env, start)
  {
    exists i: nat :: BroughtAt(env, start, run, i, f)
  }

  predicate BroughtAt(env: Env, start: State, run: seq<Step>, i: nat, f: Fetch)
    requires ValidCache(env, start)
  {
    i < |run| && ValidRun(env, start, run[..i]) && Brings(env, End(env, start, run[..i]), run[i], f)
  }

  lemma StepBrings(env: Env, s: State, st: Step, f: Fetch)
    requires ValidCache(env, s) && Enabled(env, s, st)
    ensures f in Apply(env, s, st).fetches <==> f in s.fetches || Brings(env, s, st, f)
  {
    hide NextPhase, NextShard, ShardIn, Lru.Valid, Pow2, Upstream.ReadFrom, MayUseCache, ParseRequest, FindHeaderEnd, ExpectedBytes;
  }

  lemma BroughtSnoc(env: Env, start: State, run: seq<Step>, st: Step, f: Fetch)
    requires ValidCache(env, start) && ValidRun(env, start, run)
    ensures BroughtIn(env, start, run + [st], f) <==> BroughtIn(env, start, run, f) || Brings(env, End(env, start, run), st, f)
  {
    hide Brings, End, ValidRun, ValidCache;
    var longer := run + [st];
    assert longer[..|run|] == run && longer[|run|] == st;
    assert forall i: nat :: i < |run| ==> longer[..i] == run[..i] && longer[i] == run[i];
    if Brings(env, End(env, start, run), st, f) { assert BroughtAt(env, start, longer, |run|, f); }
    if i: nat :| BroughtAt(env, start, run, i, f) { assert BroughtAt(env, start, longer, i, f); }
    if i: nat :| BroughtAt(env, start, longer, i, f) {
      if i < |run| { assert BroughtAt(env, start, run, i, f); }
    }
  }

  /** Over every run the history of fetches is exactly what the exchanges of the run brought, each for the request it was made for. */
  lemma {:induction false} FetchesAreExchanges(env: Env, workers: nat, perShard: nat, run: seq<Step>, f: Fetch)
    requires ValidRun(env, Start(env, workers, perShard), run)
    ensures f in End(env, Start(env, workers, perShard), run).fetches <==> BroughtIn(env, Start(env, workers, perShard), run, f)
    decreases |run|
  {
    hide Apply, Enabled, ValidCache, Brings, BroughtIn;
    var start := Start(env, workers, perShard);
    if run == [] {
      NothingBrought(env, start, f);
    } else {
      var prev, st := run[..|run| - 1], run[|run| - 1];
      assert run == prev + [st];
      RunSnoc(env, start, prev, st);
      FetchesAreExchanges(env, workers, perShard, prev, f);
      hide Start, End, ValidRun;
      StepBrings(env, End(env, start, prev), st, f);
      BroughtSnoc(env, start, prev, st, f);
    }
  }

  lemma NothingBrought(env: Env, start: State, f: Fetch)
    requires ValidCache(env, start)
    ensures !BroughtIn(env, start, [], f)
  {
  }

  /** The exchanges of a run that failed, and those that did not, by their scripts alone. */
  function Failures(env: Env, run: seq<Step>): nat
    decreases |run|
  {
    if run == [] then 0 else Failures(env, run[..|run| - 1]) + One(Fails(env, run[|run| - 1].a))
  }

  function Successes(env: Env, run: seq<Step>): nat
    decreases |run|
  {
    if run == [] then 0 else Successes(env, run[..|run| - 1]) + One(Succeeds(env, run[|run| - 1].a))
  }

  predicate Succeeds(env: Env, a: Action) { a.Exchange? && Upstream.ReadFrom(a.script, "", None, env.limits).0.Fetched? }

  predicate Fails(env: Env, a: Action) { a.Unreachable? || (a.Exchange? && !Succeeds(env, a)) }

  lemma ExchangeKeeps(env: Env, c: Lru.Cache<string, string>, p: Phase, a: Action)
    requires Ready(env, p, a)
    ensures var p' := NextPhase(env, c, p, a);
            && Weight(p', Failing) + One(a.CountError?) == Weight(p, Failing) + One(Fails(env, a))
            && Weight(p', Landed) + One(a.CountForward?) == Weight(p, Landed) + One(Succeeds(env, a))
  {
    hide VerdictOf, MayUseCache, HttpResponse.ParseResponse, HttpResponse.Built, ParseRequest, FindHeaderEnd, Upstream.ReadFrom, Lru.Get,
      Key, ExpectedBytes;
  }

  lemma StepExchanges(env: Env, s: State, st: Step)
    requires ValidCache(env, s) && Enabled(env, s, st)
    ensures var t := Apply(env, s, st);
            && t.upstreamErrors + Tally(t.workers, Failing) == s.upstreamErrors + Tally(s.workers, Failing) + One(Fails(env, st.a))
            && t.forwarded + Tally(t.workers, Landed) == s.forwarded + Tally(s.workers, Landed) + One(Succeeds(env, st.a))
  {
    hide Ready, NextPhase, NextShard, ShardIn, Fetches, Weight, Tally, Lru.Valid, Pow2, Fails, Succeeds;
    var p, i := s.workers[st.w], ShardIn(env, s.workers[st.w]);
    var p' := NextPhase(env, s.cache[i], p, st.a);
    ExchangeKeeps(env, s.cache[i], p, st.a);
    TallyUpdate(s.workers, st.w, p', Failing);
    TallyUpdate(s.workers, st.w, p', Landed);
  }

  /** In every interleaving the exchanges that failed are those counted as upstream errors or about to be, and the others those counted as forwarded or about to be. */
  lemma {:induction false} ExchangesCounted(env: Env, workers: nat, perShard: nat, run: seq<Step>)
    requires ValidRun(env, Start(env, workers, perShard), run)
    ensures var s := End(env, Start(env, workers, perShard), run);
            && Failures(env, run) == s.upstreamErrors + Tally(s.workers, Failing)
            && Successes(env, run) == s.forwarded + Tally(s.workers, Landed)
    decreases |run|
  {
    hide Apply, Enabled, ValidCache, Tally, Fails, Succeeds;
    var start := Start(env, workers, perShard);
    if run == [] {
      TallyResting(start.workers, Failing);
      TallyResting(start.workers, Landed);
    } else {
      var prev, st := run[..|run| - 1], run[|run| - 1];
      assert run == prev + [st];
      RunSnoc(env, start, prev, st);
      ExchangesCounted(env, workers, perShard, prev);
      hide Start, End, ValidRun;
      StepExchanges(env, End(env, start, prev), st);
    }
  }

  // ------------------------------------------------- the cache is looked at first

  function Misses(cache: seq<Lru.Cache<string, string>>): nat {
    if cache == [] then 0 else Misses(cache[..|cache| - 1]) + cache[|cache| - 1].misses
  }

  lemma {:induction false} MissesUpdate(cache: seq<Lru.Cache<string, string>>, i: nat, c: Lru.Cache<string, string>)
    requires i < |cache|
    ensures Misses(cache[i := c]) == Misses(cache) - cache[i].misses + c.misses
  {
    var n := |cache| - 1;
    if i == n {
      assert cache[i := c][..n] == cache[..n];
    } else {
      assert cache[i := c][..n] == cache[..n][i := c];
      MissesUpdate(cache[..n], i, c);
    }
  }

  /** The step turns to the origin for a request that may use the cache. */
  predicate TurnsToOrigin(s: State, st: Step) {
    && (st.a.Exchange? || st.a.Unreachable?) && st.w < |s.workers|
    && (s.workers[st.w].Missed? || s.workers[st.w].Admitted?) && Safe(s.workers[st.w].req)
  }

  function Attempts(env: Env, s: State, run: seq<Step>): nat
    requires ValidCache(env, s) && ValidRun(env, s, run)
    decreases |run|
  {
    if run == [] then 0 else One(TurnsToOrigin(s, run[0])) + Attempts(env, Apply(env, s, run[0]), run[1..])
  }

  /** Workers whose lookup found nothing, and who have not turned to the origin yet. */
  function Missing(ws: seq<Phase>): nat {
    if ws == [] then 0 else Missing(ws[..|ws| - 1]) + One(ws[|ws| - 1].Missed?)
  }

  lemma {:induction false} MissingUpdate(ws: seq<Phase>, w: nat, p: Phase)
    requires w < |ws|
    ensures Missing(ws[w := p]) == Missing(ws) - One(ws[w].Missed?) + One(p.Missed?)
  {
    var n := |ws| - 1;
    if w == n {
      assert ws[w := p][..n] == ws[..n];
    } else {
      assert ws[w := p][..n] == ws[..n][w := p];
      MissingUpdate(ws[..n], w, p);
    }
  }

  /** Only requests that may use the cache are looked up. */
  predicate MissedOk(ws: seq<Phase>) { forall w :: 0 <= w < |ws| && ws[w].Missed? ==> Safe(ws[w].req) }

  lemma MissKeeps(env: Env, c: Lru.Cache<string, string>, p: Phase, a: Action)
    requires Ready(env, p, a) && Lru.Valid(c) && (p.Missed? ==> Safe(p.req))
    ensures var p' := NextPhase(env, c, p, a);
            && (p'.Missed? ==> Safe(p'.req))
            && NextShard(env, c, p, a).misses + One(p.Missed?) ==
               c.misses + One((a.Exchange? || a.Unreachable?) && (p.Missed? || p.Admitted?) && Safe(p.req)) + One(p'.Missed?)
  {
    hide VerdictOf, HttpResponse.ParseResponse, HttpResponse.Built, HttpResponse.IsCacheable, ParseRequest, FindHeaderEnd, Upstream.ReadFrom,
      Lru.Get, Lru.Put, Lru.Valid, Key, ExpectedBytes, MayUseCache, Safe;
    if p.Missed? || p.Admitted? { MayUseIff(p.req); }
    if a.Lookup? { GetMisses(c, Key(p.req)); }
    if a.Store? { PutMisses(c, Key(p.req), p.raw); }
  }

  lemma MayUseIff(req: Request)
    ensures MayUseCache(req) <==> Safe(req)
  {
  }

  lemma GetMisses(c: Lru.Cache<string, string>, k: string)
    ensures var (c', v) := Lru.Get(c, k); c'.misses == c.misses + One(v.None?)
  {
    hide Lru.IndexOf, Lru.ToFront;
  }

  lemma PutMisses(c: Lru.Cache<string, string>, k: string, v: string)
    requires Lru.Valid(c)
    ensures 1 <= c.capacity && Lru.Put(c, k, v).misses == c.misses
  {
    hide Lru.IndexOf, Lru.ToFront;
  }

  lemma StepMisses(env: Env, s: State, st: Step)
    requires ValidCache(env, s) && MissedOk(s.workers) && Enabled(env, s, st)
    ensures var t := Apply(env, s, st);
            && MissedOk(t.workers)
            && Misses(t.cache) + Missing(s.workers) == Misses(s.cache) + One(TurnsToOrigin(s, st)) + Missing(t.workers)
  {
    hide Ready, NextPhase, NextShard, ShardIn, Fetches, Lru.Valid, Pow2, Misses, Missing, Safe;
    var p, i := s.workers[st.w], ShardIn(env, s.workers[st.w]);
    MissKeeps(env, s.cache[i], p, st.a);
    MissesUpdate(s.cache, i, NextShard(env, s.cache[i], p, st.a));
    MissingUpdate(s.workers, st.w, NextPhase(env, s.cache[i], p, st.a));
  }

  lemma {:induction false} RunMisses(env: Env, s: State, run: seq<Step>)
    requires ValidCache(env, s) && MissedOk(s.workers) && ValidRun(env, s, run)
    ensures var t := End(env, s, run); Misses(t.cache) + Missing(s.workers) == Misses(s.cache) + Attempts(env, s, run) + Missing(t.workers)
    decreases |run|
  {
    hide Apply, Enabled, ValidCache, Misses, Missing, MissedOk, TurnsToOrigin;
    if run != [] {
      StepMisses(env, s, run[0]);
      RunMisses(env, Apply(env, s, run[0]), run[1..]);
    }
  }

  /**
   In every interleaving no request that may use the cache is taken to an origin without a miss of its own: the misses
   of all shards are the turns to origins for such requests and the workers about to take one.
   */
  lemma MissedFirst(env: Env, workers: nat, perShard: nat, run: seq<Step>)
    requires ValidRun(env, Start(env, workers, perShard), run)
    ensures var s := End(env, Start(env, workers, perShard), run);
            Misses(s.cache) == Attempts(env, Start(env, workers, perShard), run) + Missing(s.workers)
  {
    hide End, ValidRun, Attempts;
    FreshMisses(env, workers, perShard);
    hide Start;
    RunMisses(env, Start(env, workers, perShard), run);
  }

  lemma FreshMisses(env: Env, workers: nat, perShard: nat)
    ensures var s := Start(env, workers, perShard); Misses(s.cache) == 0 && Missing(s.workers) == 0 && MissedOk(s.workers)
  {
    hide Pow2;
    var s := Start(env, workers, perShard);
    NoMisses(s.cache);
    NoneMissing(s.workers);
  }

  lemma {:induction false} NoMisses(cache: seq<Lru.Cache<string, string>>)
    requires forall i :: 0 <= i < |cache| ==> cache[i].misses == 0
    ensures Misses(cache) == 0
  {
    if cache != [] { NoMisses(cache[..|cache| - 1]); }
  }

  lemma {:induction false} NoneMissing(ws: seq<Phase>)
    requires forall w :: 0 <= w < |ws| ==> ws[w].Resting?
    ensures Missing(ws) == 0
  {
    if ws != [] { NoneMissing(ws[..|ws| - 1]); }
  }

  // ------------------------------------------------------ counters from steps

  /** The steps of a run that begin a good request, and those that refuse a bad one or an endless head. */
  function BeginSteps(run: seq<Step>): nat
    decreases |run|
  {
    if run == [] then 0 else BeginSteps(run[..|run| - 1]) + One(run[|run| - 1].a.Begin?)
  }

  function RefusalSteps(run: seq<Step>): nat
    decreases |run|
  {
    if run == [] then 0
    else RefusalSteps(run[..|run| - 1]) + One(run[|run| - 1].a.Reject? || run[|run| - 1].a.RejectHead?)
  }

  /** In every interleaving the requests counted are those begun, and the bad ones those refused. */
  lemma {:induction false} BegunAndRefused(env: Env, workers: nat, perShard: nat, run: seq<Step>)
    requires ValidRun(env, Start(env, workers, perShard), run)
    ensures var s := End(env, Start(env, workers, perShard), run); s.total == BeginSteps(run) && s.bad == RefusalSteps(run)
    decreases |run|
  {
    hide Apply, Enabled, ValidCache;
    var start := Start(env, workers, perShard);
    if run != [] {
      var prev, st := run[..|run| - 1], run[|run| - 1];
      assert run == prev + [st];
      RunSnoc(env, start, prev, st);
      BegunAndRefused(env, workers, perShard, prev);
      hide Start, End, ValidRun;
      StepCounts(env, End(env, start, prev), st);
    }
  }

  lemma StepCounts(env: Env, s: State, st: Step)
    requires ValidCache(env, s) && Enabled(env, s, st)
    ensures Apply(env, s, st).total == s.total + One(st.a.Begin?)
    ensures Apply(env, s, st).bad == s.bad + One(st.a.Reject? || st.a.RejectHead?)
  {
    hide NextPhase, NextShard, Fetches, ShardIn, Pow2, Lru.Valid, Ready;
  }
}
