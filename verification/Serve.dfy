/**
 `serve_one_request` run by many workers at once over one sharded cache: where every
 cached byte came from, what every log line says, and what the counters add up to. Each
 step is one atomic counter access, one cache operation under its shard's lock, one
 exchange with the origin or one log write; a run is any interleaving.
 */
module Serve {
  import opened Text
  import opened Head
  import opened HttpRequest
  import opened CacheKey
  import HttpResponse
  import opened Net
  import Printing
  import Upstream
  import Acl
  import Lru
  import opened Words

  // ------------------------------------------------------------------ state

  /** The cache column of the log; a 400 line has none. */
  datatype CacheState = HIT | MISS | BYPASS | NONE

  /** History: the branch of the handler that a line comes from. */
  datatype Kind = FromCache | Denied | BadRequest | Unanswered | Answered

  /** A log line, and the bytes handed to `send` for the request it describes. */
  datatype Line = Line(req: Request, status: int, bytes: nat, cache: CacheState, sent: string, kind: Kind)

  /** Where a worker is in `serve_one_request`. */
  datatype Phase =
    | Resting
    | Counted(req: Request)
    | Admitted(req: Request)
    | GotHit(req: Request, value: string)
    | Missed(req: Request)
    | NoAnswer(req: Request, text: string)
    | Fetched(req: Request, raw: string, status: int)
    | Forwarded(req: Request, raw: string, status: int)
    | Replying(line: Line)

  /** History: the origin answered `raw` to `req`. */
  datatype Fetch = Fetch(req: Request, raw: string)

  /** What is fixed while the proxy runs. */
  datatype Env = Env(rules: seq<Acl.Rule>, policy: Acl.Decision, routes: seq<Acl.Route>, hasher: string -> nat, bits: nat, limits: Limits)

  datatype State = State(
    cache: seq<Lru.Cache<string, string>>,
    workers: seq<Phase>,
    total: nat,
    denied: nat,
    cacheServed: nat,
    forwarded: nat,
    upstreamErrors: nat,
    bad: nat,
    log: seq<Line>,
    fetches: set<Fetch>,
    /** history: how many 400 and 431 replies `bad` is made of */
    malformed: nat,
    tooLarge: nat
  )

  datatype Action =
    | Begin(raw: string)
    | CheckAcl
    | Lookup
    | ServeHit
    | Exchange(script: seq<Recv>, text: string)
    | Unreachable(text: string)
    | CountError
    | CountForward
    | Store
    | WriteLog
    | Reject(raw: string, text: string)
    | RejectHead(raw: string)

  datatype Step = Step(w: nat, a: Action)

  /** More text than any error message has. */
  const MAX_TEXT := 0x1_0000_0000

  function ShardOf(env: Env, k: string): (i: nat)
    ensures i == Mix(env.hasher(k)) % Pow2(env.bits) < Pow2(env.bits)
  {
    MaskIsRemainder(Mix(env.hasher(k)), env.bits);
    ShardIndex(env.hasher(k), Pow2(env.bits))
  }

  function VerdictOf(env: Env, req: Request): Acl.Decision { Acl.CheckRules(env.rules, env.policy, req).decision }

  /** `cacheable_request` */
  predicate MayUseCache(req: Request) {
    (req.method_ == "GET" || req.method_ == "HEAD") && "authorization" !in req.headers
  }

  function Reply(req: Request, status: nat, reason: string, body: string, keep: bool, state: CacheState, kind: Kind): Line {
    var sent := HttpResponse.Built(status, reason, body, keep, "text/plain");
    Line(req, status, |sent|, state, sent, kind)
  }

  function MissState(req: Request): CacheState { if MayUseCache(req) then MISS else BYPASS }

  const FORBIDDEN := "403 Forbidden: blocked by proxy policy\n"

  /** When `handle_ready` and `serve_one_request` take the action in a phase. */
  predicate Ready(env: Env, p: Phase, a: Action) {
    match a
    case Begin(raw) => p.Resting? && ParseRequest(raw).valid && |raw| >= ExpectedBytes(ParseRequest(raw))
    case CheckAcl => p.Counted?
    case Lookup => p.Admitted? && MayUseCache(p.req)
    case ServeHit => p.GotHit?
    case Exchange(_, text) => |text| < MAX_TEXT && (p.Missed? || (p.Admitted? && !MayUseCache(p.req)))
    case Unreachable(text) => |text| < MAX_TEXT && (p.Missed? || (p.Admitted? && !MayUseCache(p.req)))
    case CountError => p.NoAnswer? && |p.text| < MAX_TEXT
    case CountForward => p.Fetched?
    case Store => p.Forwarded?
    case WriteLog => p.Replying?
    case Reject(raw, text) => p.Resting? && |text| < MAX_TEXT && FindHeaderEnd(raw).Some? && !ParseRequest(raw).valid
    case RejectHead(raw) => p.Resting? && FindHeaderEnd(raw).None? && |raw| > env.limits.maxHeader
  }

  predicate Enabled(env: Env, s: State, st: Step) {
    st.w < |s.workers| && Ready(env, s.workers[st.w], st.a)
  }

  function AfterFetch(req: Request, r: Upstream.Result, text: string): Phase {
    if r.Fetched? then Fetched(req, r.raw, r.parsed.status) else NoAnswer(req, text)
  }

  predicate ValidCache(env: Env, s: State) {
    |s.cache| == Pow2(env.bits) && forall i :: 0 <= i < |s.cache| ==> Lru.Valid(s.cache[i])
  }

  function Fetches(env: Env, p: Phase, a: Action): set<Fetch>
    requires Ready(env, p, a)
  {
    if a.Exchange? then
      var r := Upstream.ReadFrom(a.script, "", None, env.limits).0;
      if r.Fetched? then {Fetch(p.req, r.raw)} else {}
    else {}
  }

  /** The worker's own part of an action: where it gets to, seeing `c` as the shard of its key. */
  function NextPhase(env: Env, c: Lru.Cache<string, string>, p: Phase, a: Action): Phase
    requires Ready(env, p, a)
  {
    match a
    case Begin(raw) => Counted(ParseRequest(raw))
    case CheckAcl =>
      if VerdictOf(env, p.req) == Acl.Deny then Replying(Reply(p.req, 403, "Forbidden", FORBIDDEN, p.req.keepAlive, BYPASS, Denied))
      else Admitted(p.req)
    case Lookup =>
      var hit := Lru.Get(c, Key(p.req)).1;
      if hit.Some? then GotHit(p.req, hit.value) else Missed(p.req)
    case ServeHit => Replying(Line(p.req, HttpResponse.ParseResponse(p.value).status, |p.value|, HIT, p.value, FromCache))
    case Exchange(script, text) => AfterFetch(p.req, Upstream.ReadFrom(script, "", None, env.limits).0, text)
    case Unreachable(text) => NoAnswer(p.req, text)
    case CountError => Replying(Reply(p.req, 502, "Bad Gateway", "502 Bad Gateway: " + p.text + "\n", false, MissState(p.req), Unanswered))
    case CountForward => Forwarded(p.req, p.raw, p.status)
    case Store => Replying(Line(p.req, p.status, |p.raw|, MissState(p.req), p.raw, Answered))
    case WriteLog => Resting
    case Reject(raw, text) =>
      Replying(Reply(ParseRequest(raw), 400, "Bad Request", "400 Bad Request: " + text + "\n", false, NONE, BadRequest))
    case RejectHead(_) => Resting
  }

  /** A response `serve_one_request` puts into the cache. */
  predicate Kept(req: Request, raw: string) {
    MayUseCache(req) && HttpResponse.IsCacheable(req, HttpResponse.ParseResponse(raw))
  }

  function StoreIn(c: Lru.Cache<string, string>, req: Request, raw: string): (c': Lru.Cache<string, string>)
    requires Lru.Valid(c)
    ensures Lru.Valid(c')
  {
    PutItems(c, Key(req), raw);
    if Kept(req, raw) then Lru.Put(c, Key(req), raw) else c
  }

  /** What an action does to the shard of the request's key. */
  function NextShard(env: Env, c: Lru.Cache<string, string>, p: Phase, a: Action): (c': Lru.Cache<string, string>)
    requires Ready(env, p, a) && Lru.Valid(c)
    ensures Lru.Valid(c')
  {
    if a.Lookup? then
      GetItems(c, Key(p.req));
      Lru.Get(c, Key(p.req)).0
    else if a.Store? then StoreIn(c, p.req, p.raw)
    else c
  }

  function ShardIn(env: Env, p: Phase): (i: nat)
    ensures i < Pow2(env.bits)
  {
    if p.Admitted? || p.Forwarded? then ShardOf(env, Key(p.req)) else ShardOf(env, "")
  }

  function One(b: bool): nat { if b then 1 else 0 }

  /** The whole of an action: the worker moves, its shard, the counters, the log and the history change. */
  function Apply(env: Env, s: State, st: Step): (t: State)
    requires ValidCache(env, s) && Enabled(env, s, st)
    ensures ValidCache(env, t)
  {
    var w, p, a := st.w, s.workers[st.w], st.a;
    var i := ShardIn(env, p);
    var p' := NextPhase(env, s.cache[i], p, a);
    State(s.cache[i := NextShard(env, s.cache[i], p, a)],
          s.workers[w := p'],
          s.total + One(a.Begin?),
          s.denied + One(a.CheckAcl? && p'.Replying?),
          s.cacheServed + One(a.ServeHit?),
          s.forwarded + One(a.CountForward?),
          s.upstreamErrors + One(a.CountError?),
          s.bad + One(a.Reject? || a.RejectHead?),
          if a.WriteLog? then s.log + [p.line] else s.log,
          s.fetches + Fetches(env, p, a),
          s.malformed + One(a.Reject?),
          s.tooLarge + One(a.RejectHead?))
  }

  function Start(env: Env, workers: nat, perShard: nat): (s: State)
    ensures ValidCache(env, s)
  {
    State(seq(Pow2(env.bits), i => Lru.Empty(perShard)), seq(workers, i => Resting), 0, 0, 0, 0, 0, 0, [], {}, 0, 0)
  }

  // ------------------------------------------------------------- provenance

  /** A response the cache may keep: fetched for an allowed GET or HEAD without Authorization, status 200, no Set-Cookie. */
  predicate Storable(env: Env, f: Fetch) {
    VerdictOf(env, f.req) == Acl.Allow && NoByte(f.req.method_, ' ') && Kept(f.req, f.raw)
  }

  /** `v` is, byte for byte, a storable response fetched earlier under the key `k`. */
  ghost predicate Sourced(env: Env, fetches: set<Fetch>, k: string, v: string) {
    exists f :: f in fetches && f.raw == v && Key(f.req) == k && Storable(env, f)
  }

  ghost predicate ShardSourced(env: Env, fetches: set<Fetch>, c: Lru.Cache<string, string>) {
    forall e :: e in c.items ==> Sourced(env, fetches, e.key, e.value)
  }

  ghost predicate CacheSourced(env: Env, fetches: set<Fetch>, cache: seq<Lru.Cache<string, string>>) {
    forall i :: 0 <= i < |cache| ==> ShardSourced(env, fetches, cache[i])
  }

  predicate Valid(req: Request) { req.valid && NoByte(req.method_, ' ') }

  predicate Allowed(env: Env, req: Request) { Valid(req) && VerdictOf(env, req) == Acl.Allow }

  /** The reply is the proxy's own, of at most so much text. */
  ghost predicate OwnReply(sent: string, status: nat, reason: string, before: string) {
    exists text: string :: |text| < MAX_TEXT && sent == HttpResponse.Built(status, reason, before + text + "\n", false, "text/plain")
  }

  /**
   The line tells the status and length of exactly the bytes handed to `send`, and these are what its kind calls for: a
   stored response, the 403 of a denied request, a 400, a 502, or the very bytes that the origin gave to this request.
   */
  ghost predicate LineOk(env: Env, fetches: set<Fetch>, l: Line) {
    && l.status == HttpResponse.ParseResponse(l.sent).status && l.bytes == |l.sent|
    && match l.kind
       case FromCache =>
         l.cache == HIT && l.status == 200 && Allowed(env, l.req) && MayUseCache(l.req) && Sourced(env, fetches, Key(l.req), l.sent)
       case Denied =>
         && l.cache == BYPASS && l.status == 403 && Valid(l.req) && VerdictOf(env, l.req) == Acl.Deny
         && l.sent == HttpResponse.Built(403, "Forbidden", FORBIDDEN, l.req.keepAlive, "text/plain")
       case BadRequest =>
         l.cache == NONE && l.status == 400 && !l.req.valid && OwnReply(l.sent, 400, "Bad Request", "400 Bad Request: ")
       case Unanswered =>
         && l.cache == MissState(l.req) && l.status == 502 && Allowed(env, l.req)
         && OwnReply(l.sent, 502, "Bad Gateway", "502 Bad Gateway: ")
       case Answered => l.cache == MissState(l.req) && Allowed(env, l.req) && Fetch(l.req, l.sent) in fetches
  }

  ghost predicate PhaseOk(env: Env, fetches: set<Fetch>, p: Phase) {
    match p
    case Resting => true
    case Counted(req) => Valid(req)
    case Admitted(req) => Allowed(env, req)
    case GotHit(req, v) => Allowed(env, req) && MayUseCache(req) && Sourced(env, fetches, Key(req), v)
    case Missed(req) => Allowed(env, req)
    case NoAnswer(req, text) => Allowed(env, req) && |text| < MAX_TEXT
    case Fetched(req, raw, status) => FromOrigin(env, fetches, req, raw, status)
    case Forwarded(req, raw, status) => FromOrigin(env, fetches, req, raw, status)
    case Replying(l) => LineOk(env, fetches, l)
  }

  ghost predicate FromOrigin(env: Env, fetches: set<Fetch>, req: Request, raw: string, status: int) {
    && Allowed(env, req)
    && Fetch(req, raw) in fetches && status == HttpResponse.ParseResponse(raw).status
  }

  ghost predicate WorkersOk(env: Env, fetches: set<Fetch>, ws: seq<Phase>) {
    forall w :: 0 <= w < |ws| ==> PhaseOk(env, fetches, ws[w])
  }

  ghost predicate LogOk(env: Env, fetches: set<Fetch>, log: seq<Line>) {
    forall i :: 0 <= i < |log| ==> LineOk(env, fetches, log[i])
  }

  // --------------------------------------------------------------- counters

  /** What is counted over the workers. */
  datatype What = InFlight | Unlogged | HitTaken | Of(kind: Kind) | Failing | Landed

  /** In flight: past `total_requests`, before the outcome's own counter. */
  function Weight(p: Phase, what: What): nat {
    match what
    case InFlight => if p.Resting? || p.Forwarded? || p.Replying? then 0 else 1
    case Unlogged => if p.Forwarded? || p.Replying? then 1 else 0
    case HitTaken => if p.GotHit? then 1 else 0
    // counted for its kind, and not yet in the log
    case Of(k) => if (p.Forwarded? && k == Answered) || (p.Replying? && p.line.kind == k) then 1 else 0
    // exchanges that have ended, and are not yet counted
    case Failing => if p.NoAnswer? then 1 else 0
    case Landed => if p.Fetched? then 1 else 0
  }

  /** The lines of one kind. */
  function LinesOf(log: seq<Line>, k: Kind): nat {
    if log == [] then 0 else LinesOf(log[..|log| - 1], k) + if log[|log| - 1].kind == k then 1 else 0
  }

  lemma LinesOfMore(log: seq<Line>, l: Line, k: Kind)
    ensures LinesOf(log + [l], k) == LinesOf(log, k) + if l.kind == k then 1 else 0
  {
    assert (log + [l])[..|log|] == log;
  }

  /** The counter of a kind. */
  function CounterOf(s: State, k: Kind): nat {
    match k
    case FromCache => s.cacheServed
    case Denied => s.denied
    case BadRequest => s.malformed
    case Unanswered => s.upstreamErrors
    case Answered => s.forwarded
  }

  /** The action that counts for a kind, the worker going on to `p`. */
  predicate CountsFor(a: Action, p: Phase, k: Kind) {
    match k
    case FromCache => a.ServeHit?
    case Denied => a.CheckAcl? && p.Replying?
    case BadRequest => a.Reject?
    case Unanswered => a.CountError?
    case Answered => a.CountForward?
  }

  function Tally(ws: seq<Phase>, what: What): nat {
    if ws == [] then 0 else Tally(ws[..|ws| - 1], what) + Weight(ws[|ws| - 1], what)
  }

  lemma {:induction false} TallyUpdate(ws: seq<Phase>, w: nat, p: Phase, what: What)
    requires w < |ws|
    ensures Tally(ws[w := p], what) == Tally(ws, what) - Weight(ws[w], what) + Weight(p, what)
  {
    var n := |ws| - 1;
    hide Weight;
    if w == n {
      assert ws[w := p][..n] == ws[..n];
    } else {
      assert ws[w := p][..n] == ws[..n][w := p];
      TallyUpdate(ws[..n], w, p, what);
    }
  }

  function Hits(cache: seq<Lru.Cache<string, string>>): nat {
    if cache == [] then 0 else Hits(cache[..|cache| - 1]) + cache[|cache| - 1].hits
  }

  lemma {:induction false} HitsUpdate(cache: seq<Lru.Cache<string, string>>, i: nat, c: Lru.Cache<string, string>)
    requires i < |cache|
    ensures Hits(cache[i := c]) == Hits(cache) - cache[i].hits + c.hits
  {
    var n := |cache| - 1;
    if i == n {
      assert cache[i := c][..n] == cache[..n];
    } else {
      assert cache[i := c][..n] == cache[..n][i := c];
      HitsUpdate(cache[..n], i, c);
    }
  }

  ghost predicate CountsOk(s: State) {
    var outcomes := s.denied + s.cacheServed + s.forwarded + s.upstreamErrors;
    && s.total == outcomes + Tally(s.workers, InFlight)
    && |s.log| + Tally(s.workers, Unlogged) == outcomes + s.malformed
    && Hits(s.cache) == s.cacheServed + Tally(s.workers, HitTaken)
    && s.bad == s.malformed + s.tooLarge
    && forall k :: LinesOf(s.log, k) + Tally(s.workers, Of(k)) == CounterOf(s, k)
  }

  ghost predicate Inv(env: Env, s: State) {
    && ValidCache(env, s)
    && CacheSourced(env, s.fetches, s.cache)
    && WorkersOk(env, s.fetches, s.workers)
    && LogOk(env, s.fetches, s.log)
    && CountsOk(s)
  }

  // -------------------------------------------------------- what a step keeps

  /** A lookup neither adds nor changes an entry, and returns one stored under its key. */
  lemma GetItems(c: Lru.Cache<string, string>, k: string)
    requires Lru.Valid(c)
    ensures var (c', v) := Lru.Get(c, k);
            && Lru.Valid(c') && c'.hits == c.hits + (if v.Some? then 1 else 0)
            && (forall e :: e in c'.items ==> e in c.items)
            && (v.Some? ==> Lru.Entry(k, v.value) in c.items)
  {
    hide Lru.IndexOf, Lru.ToFront, Lru.Get;
    Lru.GetCases(c, k);
    var i := Lru.IndexOf(c.items, k);
    if i < |c.items| {
      Lru.ToFrontDistinct(c.items, i);
      assert c.items[i] == Lru.Entry(k, c.items[i].value);
      Rearranged(c.items, i);
    }
  }

  lemma Rearranged(items: seq<Lru.Entry<string, string>>, i: nat)
    requires i < |items|
    ensures forall e :: e in Lru.ToFront(items, i) ==> e in items
  {
    var r := Lru.ToFront(items, i);
    forall j | 0 <= j < |r| ensures r[j] in items {
      assert j > 0 ==> r[j] == items[if j <= i then j - 1 else j];
    }
  }

  lemma PutItems(c: Lru.Cache<string, string>, k: string, v: string)
    requires Lru.Valid(c)
    ensures 1 <= c.capacity
    ensures var c' := Lru.Put(c, k, v);
            Lru.Valid(c') && c'.hits == c.hits && forall e :: e in c'.items ==> e in c.items || e == Lru.Entry(k, v)
  {
    hide Lru.IndexOf, Lru.ToFront, Lru.Put, Lru.Without;
    Lru.PutCases(c, k, v);
    Lru.PutValid(c, k, v);
    var i, n := Lru.IndexOf(c.items, k), |c.items|;
    if i < n {
      Rearranged(c.items[i := Lru.Entry(k, v)], i);
    } else if n >= c.capacity {
      assert forall e :: e in Lru.Without(c.items, n - 1) ==> e in c.items;
    }
  }

  lemma MoreSourced(env: Env, a: set<Fetch>, b: set<Fetch>, k: string, v: string)
    requires a <= b && Sourced(env, a, k, v)
    ensures Sourced(env, b, k, v)
  {
    var f :| f in a && f.raw == v && Key(f.req) == k && Storable(env, f);
    assert f in b;
  }

  /** Later fetches never invalidate a source. */
  lemma MoreFetches(env: Env, s: State, b: set<Fetch>)
    requires s.fetches <= b
    requires CacheSourced(env, s.fetches, s.cache) && WorkersOk(env, s.fetches, s.workers) && LogOk(env, s.fetches, s.log)
    ensures CacheSourced(env, b, s.cache) && WorkersOk(env, b, s.workers) && LogOk(env, b, s.log)
  {
    hide Sourced, Key, Storable, VerdictOf, MayUseCache, NoByte, HttpResponse.ParseResponse;
    forall k, v | Sourced(env, s.fetches, k, v) ensures Sourced(env, b, k, v) {
      MoreSourced(env, s.fetches, b, k, v);
    }
    assert forall w :: 0 <= w < |s.workers| && PhaseOk(env, s.fetches, s.workers[w]) ==> PhaseOk(env, b, s.workers[w]);
    assert forall i :: 0 <= i < |s.log| && LineOk(env, s.fetches, s.log[i]) ==> LineOk(env, b, s.log[i]);
  }

  lemma OtherWorkers(env: Env, fetches: set<Fetch>, ws: seq<Phase>, w: nat, p: Phase)
    requires WorkersOk(env, fetches, ws) && w < |ws| && PhaseOk(env, fetches, p)
    ensures WorkersOk(env, fetches, ws[w := p])
  {
  }

  lemma OtherShards(env: Env, fetches: set<Fetch>, cache: seq<Lru.Cache<string, string>>, i: nat, c: Lru.Cache<string, string>)
    requires CacheSourced(env, fetches, cache) && i < |cache| && ShardSourced(env, fetches, c)
    ensures CacheSourced(env, fetches, cache[i := c])
  {
  }

  lemma ReplyStatus(req: Request, status: nat, reason: string, body: string, keep: bool, state: CacheState, kind: Kind)
    requires 100 <= status <= 599 && NoNewline(reason) && |body| <= 2 * MAX_TEXT
    ensures var l := Reply(req, status, reason, body, keep, state, kind);
            l.status == HttpResponse.ParseResponse(l.sent).status && l.bytes == |l.sent|
  {
    hide HttpResponse.ParseResponse, HttpResponse.Built;
    assert NoNewline("text/plain");
    HttpResponse.BuiltRoundTrip(status, reason, body, keep, "text/plain");
  }

  lemma DeniedOk(env: Env, fetches: set<Fetch>, req: Request)
    requires Valid(req) && VerdictOf(env, req) == Acl.Deny
    ensures LineOk(env, fetches, Reply(req, 403, "Forbidden", FORBIDDEN, req.keepAlive, BYPASS, Denied))
  {
    hide HttpResponse.ParseResponse, HttpResponse.Built, VerdictOf, NoByte;
    ReplyStatus(req, 403, "Forbidden", FORBIDDEN, req.keepAlive, BYPASS, Denied);
  }

  lemma ErrorOk(env: Env, fetches: set<Fetch>, req: Request, text: string)
    requires Allowed(env, req) && |text| < MAX_TEXT
    ensures LineOk(env, fetches, Reply(req, 502, "Bad Gateway", "502 Bad Gateway: " + text + "\n", false, MissState(req), Unanswered))
  {
    hide HttpResponse.ParseResponse, HttpResponse.Built, VerdictOf, NoByte, MayUseCache;
    ReplyStatus(req, 502, "Bad Gateway", "502 Bad Gateway: " + text + "\n", false, MissState(req), Unanswered);
  }

  lemma BadOk(env: Env, fetches: set<Fetch>, req: Request, text: string)
    requires !req.valid && |text| < MAX_TEXT
    ensures LineOk(env, fetches, Reply(req, 400, "Bad Request", "400 Bad Request: " + text + "\n", false, NONE, BadRequest))
  {
    hide HttpResponse.ParseResponse, HttpResponse.Built;
    ReplyStatus(req, 400, "Bad Request", "400 Bad Request: " + text + "\n", false, NONE, BadRequest);
  }

  lemma HitStatus(env: Env, fetches: set<Fetch>, k: string, v: string)
    requires Sourced(env, fetches, k, v)
    ensures HttpResponse.ParseResponse(v).status == 200
  {
    hide HttpResponse.ParseResponse;
  }

  /** The response a fetch returns, under the status it was first parsed with. */
  lemma FetchStatus(script: seq<Recv>, limits: Limits)
    ensures var r := Upstream.ReadFrom(script, "", None, limits).0;
            r.Fetched? ==> r.parsed.status == HttpResponse.ParseResponse(r.raw).status
  {
    hide Upstream.ReadFrom, HttpResponse.ParseResponse;
    Upstream.FetchedAgrees(script, "", None, 0, limits);
  }

  /** The acting worker's next phase is in order. */
  lemma PhaseKeeps(env: Env, fetches: set<Fetch>, c: Lru.Cache<string, string>, p: Phase, a: Action)
    requires PhaseOk(env, fetches, p) && Ready(env, p, a) && ShardSourced(env, fetches, c) && Lru.Valid(c)
    requires Fetches(env, p, a) <= fetches
    ensures PhaseOk(env, fetches, NextPhase(env, c, p, a))
  {
    hide VerdictOf, MayUseCache, NoByte, HttpResponse.ParseResponse, HttpResponse.IsCacheable, ShardSourced,
      ParseRequest, FindHeaderEnd, Upstream.ReadFrom, Lru.Get, Lru.Valid, Reply, LineOk, Key, Sourced, ExpectedBytes;
    match a
    case Begin(raw) => MethodHasNoSpace(raw);
    case CheckAcl => if VerdictOf(env, p.req) == Acl.Deny { DeniedOk(env, fetches, p.req); }
    case Lookup => LookupSourced(env, fetches, c, Key(p.req));
    case ServeHit => HitLineOk(env, fetches, p.req, p.value);
    case Exchange(script, _) => FetchStatus(script, env.limits);
    case Unreachable(_) =>
    case CountError => ErrorOk(env, fetches, p.req, p.text);
    case CountForward =>
    case Store => PlainLineOk(env, fetches, p.req, p.raw, p.status);
    case WriteLog =>
    case Reject(raw, text) => BadOk(env, fetches, ParseRequest(raw), text);
    case RejectHead(_) =>
  }

  lemma LookupSourced(env: Env, fetches: set<Fetch>, c: Lru.Cache<string, string>, k: string)
    requires ShardSourced(env, fetches, c) && Lru.Valid(c)
    ensures Lru.Get(c, k).1.Some? ==> Sourced(env, fetches, k, Lru.Get(c, k).1.value)
  {
    hide Lru.Get, Sourced, Lru.Valid;
    GetItems(c, k);
  }

  lemma HitLineOk(env: Env, fetches: set<Fetch>, req: Request, v: string)
    requires PhaseOk(env, fetches, GotHit(req, v))
    ensures LineOk(env, fetches, Line(req, HttpResponse.ParseResponse(v).status, |v|, HIT, v, FromCache))
  {
    hide HttpResponse.ParseResponse, Sourced, VerdictOf, MayUseCache, NoByte;
    HitStatus(env, fetches, Key(req), v);
  }

  lemma PlainLineOk(env: Env, fetches: set<Fetch>, req: Request, raw: string, status: int)
    requires FromOrigin(env, fetches, req, raw, status)
    ensures LineOk(env, fetches, Line(req, status, |raw|, MissState(req), raw, Answered))
  {
    hide HttpResponse.ParseResponse, Sourced, VerdictOf, MayUseCache, NoByte;
  }

  /** Only storable responses enter the cache. */
  lemma ShardKeeps(env: Env, fetches: set<Fetch>, c: Lru.Cache<string, string>, p: Phase, a: Action)
    requires PhaseOk(env, fetches, p) && Ready(env, p, a) && ShardSourced(env, fetches, c) && Lru.Valid(c)
    ensures Lru.Valid(NextShard(env, c, p, a)) && ShardSourced(env, fetches, NextShard(env, c, p, a))
  {
    hide VerdictOf, NoByte, HttpResponse.ParseResponse, HttpResponse.IsCacheable, ParseRequest, FindHeaderEnd,
      Lru.Get, Lru.Put, Lru.Valid, LineOk, Key, Sourced, ExpectedBytes, MayUseCache, ShardSourced;
    if a.Lookup? {
      LookupKeeps(env, fetches, c, Key(p.req));
    } else if a.Store? && Kept(p.req, p.raw) {
      StoreKeeps(env, fetches, c, Fetch(p.req, p.raw));
    }
  }

  lemma LookupKeeps(env: Env, fetches: set<Fetch>, c: Lru.Cache<string, string>, k: string)
    requires Lru.Valid(c) && ShardSourced(env, fetches, c)
    ensures Lru.Valid(Lru.Get(c, k).0) && ShardSourced(env, fetches, Lru.Get(c, k).0)
  {
    hide Lru.Get, Lru.Valid, Sourced;
    GetItems(c, k);
  }

  lemma StoreKeeps(env: Env, fetches: set<Fetch>, c: Lru.Cache<string, string>, f: Fetch)
    requires Lru.Valid(c) && ShardSourced(env, fetches, c) && f in fetches && Storable(env, f)
    ensures Lru.Valid(Lru.Put(c, Key(f.req), f.raw)) && ShardSourced(env, fetches, Lru.Put(c, Key(f.req), f.raw))
  {
    hide Lru.Put, Lru.Valid, Storable;
    PutItems(c, Key(f.req), f.raw);
  }

  lemma HitsKeep(env: Env, c: Lru.Cache<string, string>, p: Phase, a: Action)
    requires Ready(env, p, a) && Lru.Valid(c)
    ensures NextShard(env, c, p, a).hits == c.hits + One(a.Lookup? && NextPhase(env, c, p, a).GotHit?)
  {
    hide MayUseCache, HttpResponse.ParseResponse, HttpResponse.IsCacheable, ParseRequest, FindHeaderEnd,
      Upstream.ReadFrom, Lru.Get, Lru.Put, Lru.Valid, Key, ExpectedBytes;
    if a.Lookup? {
      GetItems(c, Key(p.req));
    } else if a.Store? {
      PutItems(c, Key(p.req), p.raw);
    }
  }

  /** How an action moves its worker in each tally. */
  lemma WeightsKeep(env: Env, c: Lru.Cache<string, string>, p: Phase, a: Action)
    requires Ready(env, p, a)
    ensures var p' := NextPhase(env, c, p, a);
      && Weight(p', InFlight) + One(a.CheckAcl? && p'.Replying?) + One(a.ServeHit?) + One(a.CountForward?) + One(a.CountError?)
         == Weight(p, InFlight) + One(a.Begin?)
      && Weight(p', Unlogged) + One(a.WriteLog?) == Weight(p, Unlogged) + One(a.CheckAcl? && p'.Replying?)
         + One(a.ServeHit?) + One(a.CountForward?) + One(a.CountError?) + One(a.Reject?)
      && Weight(p', HitTaken) + One(a.ServeHit?) == Weight(p, HitTaken) + One(a.Lookup? && p'.GotHit?)
  {
    hide VerdictOf, MayUseCache, HttpResponse.ParseResponse, ParseRequest, FindHeaderEnd, Upstream.ReadFrom, Lru.Get, Reply, Key, ExpectedBytes;
  }

  /** How an action moves its worker between the kinds: counted for one, and at the end logged under it. */
  lemma KindKeeps(env: Env, c: Lru.Cache<string, string>, p: Phase, a: Action, k: Kind)
    requires Ready(env, p, a)
    ensures a.WriteLog? ==> p.Replying?
    ensures var p' := NextPhase(env, c, p, a);
            Weight(p', Of(k)) + One(a.WriteLog? && p.line.kind == k) == Weight(p, Of(k)) + One(CountsFor(a, p', k))
  {
    hide VerdictOf, MayUseCache, HttpResponse.ParseResponse, HttpResponse.Built, ParseRequest, FindHeaderEnd, Upstream.ReadFrom, Lru.Get,
      Key, ExpectedBytes;
  }

  lemma LinesKeep(env: Env, s: State, st: Step, k: Kind)
    requires ValidCache(env, s) && Enabled(env, s, st)
    requires LinesOf(s.log, k) + Tally(s.workers, Of(k)) == CounterOf(s, k)
    ensures var t := Apply(env, s, st); LinesOf(t.log, k) + Tally(t.workers, Of(k)) == CounterOf(t, k)
  {
    hide Ready, NextPhase, NextShard, ShardIn, Fetches, Weight, Tally, LinesOf, Lru.Valid, Pow2;
    var p, i := s.workers[st.w], ShardIn(env, s.workers[st.w]);
    KindKeeps(env, s.cache[i], p, st.a, k);
    TallyUpdate(s.workers, st.w, NextPhase(env, s.cache[i], p, st.a), Of(k));
    if st.a.WriteLog? { LinesOfMore(s.log, p.line, k); }
  }

  lemma CountsKeep(env: Env, s: State, st: Step)
    requires ValidCache(env, s) && CountsOk(s) && Enabled(env, s, st)
    ensures CountsOk(Apply(env, s, st))
  {
    hide Ready, NextPhase, NextShard, ShardIn, Fetches, Weight, Tally, Hits, Lru.Valid, Pow2, LinesOf, CounterOf, CountsFor;
    forall k ensures var t := Apply(env, s, st); LinesOf(t.log, k) + Tally(t.workers, Of(k)) == CounterOf(t, k) {
      LinesKeep(env, s, st, k);
    }
    var w, p, i := st.w, s.workers[st.w], ShardIn(env, s.workers[st.w]);
    var p' := NextPhase(env, s.cache[i], p, st.a);
    TallyUpdate(s.workers, w, p', InFlight);
    TallyUpdate(s.workers, w, p', Unlogged);
    TallyUpdate(s.workers, w, p', HitTaken);
    WeightsKeep(env, s.cache[i], p, st.a);
    HitsKeep(env, s.cache[i], p, st.a);
    HitsUpdate(s.cache, i, NextShard(env, s.cache[i], p, st.a));
  }

  /** Every step any worker can take keeps provenance, log and counters right. */
  lemma StepKeeps(env: Env, s: State, st: Step)
    requires Inv(env, s) && Enabled(env, s, st)
    ensures Inv(env, Apply(env, s, st))
  {
    hide Ready, NextPhase, NextShard, ShardIn, Fetches, CountsOk, PhaseOk, LineOk, ShardSourced, Lru.Valid, Pow2;
    var t := Apply(env, s, st);
    var w, p, i := st.w, s.workers[st.w], ShardIn(env, s.workers[st.w]);
    MoreFetches(env, s, t.fetches);
    PhaseKeeps(env, t.fetches, s.cache[i], p, st.a);
    ShardKeeps(env, t.fetches, s.cache[i], p, st.a);
    CountsKeep(env, s, st);
    OtherWorkers(env, t.fetches, s.workers, w, t.workers[w]);
    OtherShards(env, t.fetches, s.cache, i, t.cache[i]);
    if st.a.WriteLog? {
      IsReplying(env, p, st.a);
      LoggedOk(env, t.fetches, p);
    }
  }

  lemma IsReplying(env: Env, p: Phase, a: Action)
    requires Ready(env, p, a) && a.WriteLog?
    ensures p.Replying?
  {
  }

  lemma LoggedOk(env: Env, fetches: set<Fetch>, p: Phase)
    requires PhaseOk(env, fetches, p) && p.Replying?
    ensures LineOk(env, fetches, p.line)
  {
    hide LineOk;
  }

  // ------------------------------------------------------------------- runs

  predicate ValidRun(env: Env, s: State, run: seq<Step>)
    requires ValidCache(env, s)
    decreases |run|
  {
    run == [] || (Enabled(env, s, run[0]) && ValidRun(env, Apply(env, s, run[0]), run[1..]))
  }

  function End(env: Env, s: State, run: seq<Step>): (t: State)
    requires ValidCache(env, s) && ValidRun(env, s, run)
    ensures ValidCache(env, t)
    decreases |run|
  {
    if run == [] then s else End(env, Apply(env, s, run[0]), run[1..])
  }

  lemma {:induction false} RunKeeps(env: Env, s: State, run: seq<Step>)
    requires Inv(env, s) && ValidRun(env, s, run)
    ensures Inv(env, End(env, s, run))
    decreases |run|
  {
    hide Apply, Enabled, ValidCache, CacheSourced, WorkersOk, LogOk, CountsOk;
    if run != [] {
      StepKeeps(env, s, run[0]);
      RunKeeps(env, Apply(env, s, run[0]), run[1..]);
    }
  }

  lemma {:induction false} TallyResting(ws: seq<Phase>, what: What)
    requires forall w :: 0 <= w < |ws| ==> ws[w].Resting?
    ensures Tally(ws, what) == 0
  {
    if ws != [] { TallyResting(ws[..|ws| - 1], what); }
  }

  lemma {:induction false} NoHitsYet(cache: seq<Lru.Cache<string, string>>)
    requires forall i :: 0 <= i < |cache| ==> cache[i].hits == 0
    ensures Hits(cache) == 0
  {
    if cache != [] { NoHitsYet(cache[..|cache| - 1]); }
  }

  lemma StartInv(env: Env, workers: nat, perShard: nat)
    ensures Inv(env, Start(env, workers, perShard))
  {
    hide Pow2;
    var s := Start(env, workers, perShard);
    TallyResting(s.workers, InFlight);
    TallyResting(s.workers, Unlogged);
    TallyResting(s.workers, HitTaken);
    forall k ensures Tally(s.workers, Of(k)) == 0 { TallyResting(s.workers, Of(k)); }
    NoHitsYet(s.cache);
    assert forall i :: 0 <= i < |s.cache| ==> s.cache[i] == Lru.Empty(perShard);
  }

  // ----------------------------------------------------------- main results

  /** Step `i` of the run is the lookup that found `v` for `req`, and `v` had been fetched, and was fit to be kept, before that step. */
  ghost predicate LookedAt(env: Env, start: State, run: seq<Step>, i: nat, req: Request, v: string)
    requires ValidCache(env, start)
  {
    && i < |run| && run[i].a.Lookup? && ValidRun(env, start, run[..i])
    && var s := End(env, start, run[..i]);
       && Enabled(env, s, run[i])
       && Apply(env, s, run[i]).workers[run[i].w] == GotHit(req, v)
       && Sourced(env, s.fetches, Key(req), v)
  }

  ghost predicate Looked(env: Env, start: State, run: seq<Step>, req: Request, v: string)
    requires ValidCache(env, start)
  {
    exists i: nat :: LookedAt(env, start, run, i, req, v)
  }

  /** Every hit held by a worker or written to the log comes from a lookup of the run. */
  ghost predicate Traced(env: Env, start: State, run: seq<Step>, s: State)
    requires ValidCache(env, start)
  {
    && (forall w :: 0 <= w < |s.workers| ==> TracedPhase(env, start, run, s.workers[w]))
    && (forall i :: 0 <= i < |s.log| ==> TracedLine(env, start, run, s.log[i]))
  }

  ghost predicate TracedLine(env: Env, start: State, run: seq<Step>, l: Line)
    requires ValidCache(env, start)
  {
    l.cache.HIT? ==> Looked(env, start, run, l.req, l.sent)
  }

  ghost predicate TracedPhase(env: Env, start: State, run: seq<Step>, p: Phase)
    requires ValidCache(env, start)
  {
    && (p.GotHit? ==> Looked(env, start, run, p.req, p.value))
    && (p.Replying? ==> TracedLine(env, start, run, p.line))
  }

  lemma {:induction false} RunSnoc(env: Env, s: State, run: seq<Step>, st: Step)
    requires ValidCache(env, s) && ValidRun(env, s, run + [st])
    ensures ValidRun(env, s, run) && Enabled(env, End(env, s, run), st)
    ensures End(env, s, run + [st]) == Apply(env, End(env, s, run), st)
    decreases |run|
  {
    hide Apply, Enabled;
    if run == [] {
      assert ([] + [st])[0] == st && ([] + [st])[1..] == [];
    } else {
      assert (run + [st])[0] == run[0] && (run + [st])[1..] == run[1..] + [st];
      RunSnoc(env, Apply(env, s, run[0]), run[1..], st);
    }
  }

  lemma LookedLater(env: Env, start: State, run: seq<Step>, st: Step, req: Request, v: string)
    requires ValidCache(env, start) && Looked(env, start, run, req, v)
    ensures Looked(env, start, run + [st], req, v)
  {
    hide Apply, Enabled, Sourced, Key, End, ValidRun;
    var i: nat :| LookedAt(env, start, run, i, req, v);
    var longer := run + [st];
    assert longer[..i] == run[..i] && longer[i] == run[i];
    assert LookedAt(env, start, longer, i, req, v);
  }

  lemma LineLater(env: Env, start: State, run: seq<Step>, st: Step, l: Line)
    requires ValidCache(env, start) && TracedLine(env, start, run, l)
    ensures TracedLine(env, start, run + [st], l)
  {
    hide Looked;
    if l.cache.HIT? { LookedLater(env, start, run, st, l.req, l.sent); }
  }

  lemma PhaseLater(env: Env, start: State, run: seq<Step>, st: Step, p: Phase)
    requires ValidCache(env, start) && TracedPhase(env, start, run, p)
    ensures TracedPhase(env, start, run + [st], p)
  {
    hide Looked, TracedLine;
    if p.GotHit? { LookedLater(env, start, run, st, p.req, p.value); }
    if p.Replying? { LineLater(env, start, run, st, p.line); }
  }

  /** A worker comes to hold a hit by a lookup, and to reply with one by holding it. */
  lemma HitsComeFrom(env: Env, c: Lru.Cache<string, string>, p: Phase, a: Action)
    requires Ready(env, p, a)
    ensures var p' := NextPhase(env, c, p, a);
            && (p'.GotHit? ==> a.Lookup?)
            && (p'.Replying? && p'.line.cache.HIT? ==> p.GotHit? && p'.line.req == p.req && p'.line.sent == p.value)
  {
    hide VerdictOf, MayUseCache, HttpResponse.ParseResponse, ParseRequest, FindHeaderEnd, Upstream.ReadFrom, Lru.Get, Key, ExpectedBytes,
      HttpResponse.Built;
  }

  /** The acting worker's next phase is traced in the run extended by its step. */
  lemma ActorTraced(env: Env, start: State, run: seq<Step>, st: Step)
    requires ValidCache(env, start) && ValidRun(env, start, run)
    requires var s := End(env, start, run); Inv(env, s) && Traced(env, start, run, s) && Enabled(env, s, st)
    ensures TracedPhase(env, start, run + [st], Apply(env, End(env, start, run), st).workers[st.w])
  {
    hide Inv, Looked, NextPhase, NextShard, Fetches, ShardIn, Ready, Sourced, Key, Pow2, Lru.Valid, End, ValidRun;
    var s := End(env, start, run);
    var p, p' := s.workers[st.w], Apply(env, s, st).workers[st.w];
    assert TracedPhase(env, start, run, p);
    HitsComeFrom(env, s.cache[ShardIn(env, p)], p, st.a);
    if p'.GotHit? {
      assert (run + [st])[..|run|] == run;
      GotHitSourced(env, s, st);
      LookedNow(env, start, run, st, p'.req, p'.value);
    } else if p'.Replying? && p'.line.cache.HIT? {
      LookedLater(env, start, run, st, p.req, p.value);
    }
  }

  lemma LookedNow(env: Env, start: State, run: seq<Step>, st: Step, req: Request, v: string)
    requires ValidCache(env, start) && ValidRun(env, start, run) && st.a.Lookup?
    requires var s := End(env, start, run);
             && Enabled(env, s, st) && Apply(env, s, st).workers[st.w] == GotHit(req, v) && Sourced(env, s.fetches, Key(req), v)
    ensures Looked(env, start, run + [st], req, v)
  {
    hide Apply, Enabled, Sourced, Key, End, ValidRun;
    assert (run + [st])[..|run|] == run && (run + [st])[|run|] == st;
    assert LookedAt(env, start, run + [st], |run|, req, v);
  }

  lemma GotHitSourced(env: Env, s: State, st: Step)
    requires Inv(env, s) && Enabled(env, s, st) && st.a.Lookup?
    ensures var p := Apply(env, s, st).workers[st.w];
            p.GotHit? ==> Sourced(env, s.fetches, Key(p.req), p.value)
  {
    hide Inv, Sourced, Key, Pow2, Lru.Valid, Lru.Get, NextShard, Fetches, ShardOf, MayUseCache, CacheSourced;
    InvShards(env, s, ShardIn(env, s.workers[st.w]));
    LookupSourced(env, s.fetches, s.cache[ShardIn(env, s.workers[st.w])], Key(s.workers[st.w].req));
  }

  lemma InvShards(env: Env, s: State, i: nat)
    requires Inv(env, s) && i < Pow2(env.bits)
    ensures i < |s.cache| && ShardSourced(env, s.fetches, s.cache[i]) && Lru.Valid(s.cache[i])
  {
    hide ShardSourced, Lru.Valid, WorkersOk, LogOk, CountsOk, Pow2;
  }

  /** A step moves one worker, and logs at most that worker's line. */
  lemma OneActs(env: Env, s: State, st: Step)
    requires ValidCache(env, s) && Enabled(env, s, st)
    ensures var t := Apply(env, s, st);
            && |t.workers| == |s.workers| && st.w < |s.workers| && t.workers == s.workers[st.w := t.workers[st.w]]
            && (t.log == s.log || (s.workers[st.w].Replying? && t.log == s.log + [s.workers[st.w].line]))
  {
    hide NextPhase, NextShard, Fetches, ShardIn, Pow2, Lru.Valid, FindHeaderEnd, ParseRequest, ExpectedBytes, MayUseCache;
  }

  lemma StepTraced(env: Env, start: State, run: seq<Step>, st: Step)
    requires ValidCache(env, start) && ValidRun(env, start, run)
    requires var s := End(env, start, run); Inv(env, s) && Traced(env, start, run, s) && Enabled(env, s, st)
    ensures Traced(env, start, run + [st], Apply(env, End(env, start, run), st))
  {
    hide Inv, TracedPhase, TracedLine, Apply, Enabled, ValidCache, End, ValidRun;
    var s := End(env, start, run);
    var t := Apply(env, s, st);
    OneActs(env, s, st);
    ActorTraced(env, start, run, st);
    forall w | 0 <= w < |t.workers| ensures TracedPhase(env, start, run + [st], t.workers[w]) {
      if w != st.w { PhaseLater(env, start, run, st, s.workers[w]); }
    }
    forall i | 0 <= i < |t.log| ensures TracedLine(env, start, run + [st], t.log[i]) {
      if i < |s.log| {
        LineLater(env, start, run, st, s.log[i]);
      } else {
        LoggedTraced(env, start, run, s.workers[st.w]);
        LineLater(env, start, run, st, t.log[i]);
      }
    }
  }

  lemma LoggedTraced(env: Env, start: State, run: seq<Step>, p: Phase)
    requires ValidCache(env, start) && TracedPhase(env, start, run, p) && p.Replying?
    ensures TracedLine(env, start, run, p.line)
  {
  }

  lemma {:induction false} RunTraced(env: Env, workers: nat, perShard: nat, run: seq<Step>)
    requires ValidRun(env, Start(env, workers, perShard), run)
    ensures Traced(env, Start(env, workers, perShard), run, End(env, Start(env, workers, perShard), run))
    decreases |run|
  {
    hide Inv, TracedPhase, TracedLine, Apply, Enabled, ValidCache;
    var start := Start(env, workers, perShard);
    if run == [] {
      StartTraced(env, workers, perShard);
    } else {
      var prev, st := run[..|run| - 1], run[|run| - 1];
      assert run == prev + [st];
      RunSnoc(env, start, prev, st);
      RunTraced(env, workers, perShard, prev);
      StartInv(env, workers, perShard);
      RunKeeps(env, start, prev);
      hide Traced, Start, End, ValidRun;
      StepTraced(env, start, prev, st);
    }
  }

  lemma StartTraced(env: Env, workers: nat, perShard: nat)
    ensures Traced(env, Start(env, workers, perShard), [], Start(env, workers, perShard))
  {
    hide Looked, Pow2;
  }

  /**
   Over every run, a HIT in the log is a 200 for an allowed request, and some step of the run is the lookup that found
   its bytes; before that step the origin had given exactly those bytes under the same key, for a request they may be kept for.
   */
  lemma HitProvenance(env: Env, workers: nat, perShard: nat, run: seq<Step>, l: Line)
    requires ValidRun(env, Start(env, workers, perShard), run)
    requires l in End(env, Start(env, workers, perShard), run).log && l.cache.HIT?
    ensures l.status == 200 && VerdictOf(env, l.req) == Acl.Allow
    ensures exists i: nat :: LookedAt(env, Start(env, workers, perShard), run, i, l.req, l.sent)
    ensures exists f :: f in End(env, Start(env, workers, perShard), run).fetches
              && f.raw == l.sent && Key(f.req) == Key(l.req) && Storable(env, f)
  {
    hide Start, End, ValidRun, ValidCache, CacheSourced, WorkersOk, CountsOk, Storable, VerdictOf, MayUseCache, Key, LookedAt;
    StartInv(env, workers, perShard);
    RunKeeps(env, Start(env, workers, perShard), run);
    RunTraced(env, workers, perShard, run);
    var start := Start(env, workers, perShard);
    var s := End(env, start, run);
    assert LogOk(env, s.fetches, s.log);
    var i :| 0 <= i < |s.log| && s.log[i] == l;
    assert TracedLine(env, start, run, s.log[i]);
  }

  /** A response kept answers the next lookup of its key, byte for byte; one not kept leaves the shard as it was. */
  lemma StoredIsServed(c: Lru.Cache<string, string>, req: Request, raw: string)
    requires Lru.Valid(c)
    ensures Kept(req, raw) ==> Lru.Get(StoreIn(c, req, raw), Key(req)).1 == Some(raw)
    ensures !Kept(req, raw) ==> StoreIn(c, req, raw) == c
  {
    hide Kept, Key, Lru.Get, Lru.Put, Lru.Valid;
    JustPut(c, Key(req), raw);
  }

  lemma JustPut(c: Lru.Cache<string, string>, k: string, v: string)
    requires Lru.Valid(c)
    ensures 1 <= c.capacity && Lru.Get(Lru.Put(c, k, v), k).1 == Some(v)
  {
    hide Lru.IndexOf, Lru.ToFront, Lru.Put, Lru.Get, Lru.Without;
    Lru.PutCases(c, k, v);
    Lru.PutValid(c, k, v);
    var c' := Lru.Put(c, k, v);
    assert c'.items != [] && c'.items[0] == Lru.Entry(k, v);
    Lru.PosIs(c'.items, 0, k);
    Lru.GetCases(c', k);
  }

  /** Which printed responses are storable, by their fields as printed. */
  lemma StorableAsPrinted(env: Env, f: Fetch, proto: string, status: nat, reason: string, fs: seq<Field>, body: string)
    requires PlainWord(proto) && 100 <= status <= 599 && NoNewline(reason) && PlainFields(fs)
    requires f.raw == Printing.PrintResponseHead(proto, Decimal(status), reason, fs) + body
    ensures var cc := ValuesOf(fs, Printing.CACHE_CONTROL);
            Storable(env, f) <==>
              && VerdictOf(env, f.req) == Acl.Allow
              && (f.req.method_ == "GET" || f.req.method_ == "HEAD") && "authorization" !in f.req.headers
              && status == 200 && ValuesOf(fs, Printing.SET_COOKIE) == [] && (cc != [] ==> !Printing.Forbids(cc[|cc| - 1]))
  {
    hide HttpResponse.ParseResponse, HttpResponse.IsCacheable, Acl.CheckRules, Decimal, Printing.PrintResponseHead, PlainWord, PlainFields,
      ValuesOf, Printing.Forbids;
    Printing.CacheableAsPrinted(f.req, proto, status, reason, fs, body);
  }

  /** Over every run, each log line tells the status and the length of exactly the bytes handed to `send`. */
  lemma LogIsFaithful(env: Env, workers: nat, perShard: nat, run: seq<Step>, l: Line)
    requires ValidRun(env, Start(env, workers, perShard), run)
    requires l in End(env, Start(env, workers, perShard), run).log
    ensures l.status == HttpResponse.ParseResponse(l.sent).status && l.bytes == |l.sent|
  {
    hide Start, End, ValidRun, ValidCache, CacheSourced, WorkersOk, CountsOk, Storable, VerdictOf, MayUseCache, Key, Sourced;
    StartInv(env, workers, perShard);
    RunKeeps(env, Start(env, workers, perShard), run);
    var s := End(env, Start(env, workers, perShard), run);
    assert LogOk(env, s.fetches, s.log);
  }

  /** Two requests name one resource, get one verdict and go to one upstream. */
  predicate SameService(env: Env, a: Request, b: Request) {
    var x, y := Acl.Resolve(env.routes, a.host), Acl.Resolve(env.routes, b.host);
    && a.method_ == b.method_ && Acl.SameResource(a, b)
    && Acl.CheckRules(env.rules, env.policy, a) == Acl.CheckRules(env.rules, env.policy, b)
    && x.port == y.port && ToLower(x.host) == ToLower(y.host)
  }

  lemma SameKeySameService(env: Env, a: Request, b: Request)
    requires Key(a) == Key(b) && PlainTarget(a) && PlainTarget(b) && NoByte(a.method_, ' ') && NoByte(b.method_, ' ')
    ensures SameService(env, a, b)
  {
    KeySeparates(a, b);
    hide ToLower, Acl.CheckRules, Acl.Resolve;
    Acl.VerdictOfResource(env.rules, env.policy, a, b);
    Acl.ResolveFolded(env.routes, a.host, b.host);
  }

  /**
   Over every run a HIT for a plain target crosses no boundary: of the lookup that found its bytes and the fetch that
   had brought them before it, either the fetch was for a target that is not plain, or both requests name one
   resource, get one verdict and go to one upstream.
   */
  lemma HitSameResource(env: Env, workers: nat, perShard: nat, run: seq<Step>, l: Line) returns (i: nat, f: Fetch)
    requires ValidRun(env, Start(env, workers, perShard), run)
    requires l in End(env, Start(env, workers, perShard), run).log && l.cache.HIT? && PlainTarget(l.req)
    ensures LookedAt(env, Start(env, workers, perShard), run, i, l.req, l.sent)
    ensures f in End(env, Start(env, workers, perShard), run[..i]).fetches && f.raw == l.sent && Key(f.req) == Key(l.req)
    ensures PlainTarget(f.req) ==> SameService(env, f.req, l.req)
  {
    hide Start, End, ValidRun, ValidCache, CacheSourced, WorkersOk, CountsOk, Storable, VerdictOf, MayUseCache, Key, LookedAt, PlainTarget,
      SameService, NoByte;
    var start := Start(env, workers, perShard);
    HitProvenance(env, workers, perShard, run, l);
    i :| LookedAt(env, start, run, i, l.req, l.sent);
    f := FetchBefore(env, start, run, i, l.req, l.sent);
    StartInv(env, workers, perShard);
    RunKeeps(env, start, run);
    LineMethod(env, End(env, start, run), l);
    if PlainTarget(f.req) { SameKeySameService(env, f.req, l.req); }
  }

  lemma FetchBefore(env: Env, start: State, run: seq<Step>, i: nat, req: Request, v: string) returns (f: Fetch)
    requires ValidCache(env, start) && LookedAt(env, start, run, i, req, v)
    ensures i < |run| && ValidRun(env, start, run[..i])
    ensures f in End(env, start, run[..i]).fetches && f.raw == v && Key(f.req) == Key(req) && NoByte(f.req.method_, ' ')
  {
    hide Apply, Enabled, End, ValidRun, ValidCache, Key, VerdictOf, Kept, NoByte;
    var s := End(env, start, run[..i]);
    f :| f in s.fetches && f.raw == v && Key(f.req) == Key(req) && Storable(env, f);
  }

  lemma LineMethod(env: Env, s: State, l: Line)
    requires Inv(env, s) && l in s.log && l.cache.HIT?
    ensures NoByte(l.req.method_, ' ')
  {
    hide ValidCache, CacheSourced, WorkersOk, CountsOk, Sourced, VerdictOf, MayUseCache, NoByte;
    var i :| 0 <= i < |s.log| && s.log[i] == l;
    assert LineOk(env, s.fetches, s.log[i]);
  }

  /** In every interleaving the counters balance against the requests in flight. */
  lemma CountersBalance(env: Env, workers: nat, perShard: nat, run: seq<Step>)
    requires ValidRun(env, Start(env, workers, perShard), run)
    ensures var s := End(env, Start(env, workers, perShard), run);
            && s.total == s.denied + s.cacheServed + s.forwarded + s.upstreamErrors + Tally(s.workers, InFlight)
            && s.bad == s.malformed + s.tooLarge
            && ((forall w :: 0 <= w < |s.workers| ==> s.workers[w].Resting?) ==>
                  && s.total == s.denied + s.cacheServed + s.forwarded + s.upstreamErrors
                  && |s.log| == s.total + s.malformed && Hits(s.cache) == s.cacheServed)
  {
    hide Start, End, ValidRun, ValidCache, CacheSourced, WorkersOk, LogOk, Tally, Hits;
    StartInv(env, workers, perShard);
    RunKeeps(env, Start(env, workers, perShard), run);
    var s := End(env, Start(env, workers, perShard), run);
    assert CountsOk(s);
    if forall w :: 0 <= w < |s.workers| ==> s.workers[w].Resting? {
      TallyResting(s.workers, InFlight);
      TallyResting(s.workers, Unlogged);
      TallyResting(s.workers, HitTaken);
    }
  }
}
