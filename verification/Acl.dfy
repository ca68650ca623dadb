/**
 Access control and routing of http.hpp: the wildcard matcher, the rule list and its
 first-match check, the route table, and the loader of the configuration text.
 */
module Acl {
  import opened Text
  import opened HttpRequest

  datatype Decision = Allow | Deny

  datatype Upstream = Upstream(host: string, port: int)

  datatype Route = Route(pattern: string, up: Upstream)

  datatype Rule = Rule(decision: Decision, field: string, pattern: string, source: string)

  datatype Verdict = Verdict(decision: Decision, matchedRule: string)

  // -------------------------------------------------------------- wildcards

  predicate WildcardMatch(pattern: string, value: string) {
    if pattern == "*" then true
    else if |pattern| > 2 && StartsWith(pattern, "*.") then EndsWith(value, pattern[1..])
    else if pattern != "" && pattern[|pattern| - 1] == '*' then StartsWith(value, pattern[..|pattern| - 1])
    else pattern == value
  }

  /** The four kinds of pattern. */
  datatype Shape = Any | Suffix(s: string) | Prefix(p: string) | Exact(v: string)

  function ShapeOf(pattern: string): (r: Shape)
    ensures r.Suffix? ==> r.s != ""
    ensures r.Prefix? ==> r.p != ""
  {
    if pattern == "*" then Any
    else if |pattern| > 2 && StartsWith(pattern, "*.") then Suffix(pattern[1..])
    else if pattern != "" && pattern[|pattern| - 1] == '*' then Prefix(pattern[..|pattern| - 1])
    else Exact(pattern)
  }

  /** A test on the two texts alone for `p` matching everything that `q` matches. */
  predicate Covers(p: string, q: string) {
    match (ShapeOf(p), ShapeOf(q))
    case (Any, _) => true
    case (Suffix(s), Suffix(t)) => EndsWith(t, s)
    case (Suffix(s), Exact(v)) => EndsWith(v, s)
    case (Prefix(x), Prefix(y)) => StartsWith(y, x)
    case (Prefix(x), Exact(v)) => StartsWith(v, x)
    case (Exact(v), Exact(w)) => v == w
    case _ => false
  }

  lemma EndsWithTransitive(a: string, b: string, c: string)
    requires EndsWith(a, b) && EndsWith(b, c)
    ensures EndsWith(a, c)
  {
    assert a[|a| - |c|..] == a[|a| - |b|..][|b| - |c|..];
  }

  lemma CoversSound(p: string, q: string, v: string)
    requires Covers(p, q) && WildcardMatch(q, v)
    ensures WildcardMatch(p, v)
  {
    if ShapeOf(p).Suffix? && ShapeOf(q).Suffix? {
      EndsWithTransitive(v, ShapeOf(q).s, ShapeOf(p).s);
    }
  }

  function Other(c: char): (d: char)
    ensures d != c
  {
    if c == 'a' then 'b' else 'a'
  }

  /** When the test fails, a value that `q` matches and `p` does not. */
  lemma CoversComplete(p: string, q: string) returns (v: string)
    requires !Covers(p, q)
    ensures WildcardMatch(q, v) && !WildcardMatch(p, v)
  {
    match ShapeOf(q) {
      case Exact(w) => v := w;
      case Any => v := if ShapeOf(p).Exact? then p + "a" else "";
      case Suffix(t) =>
        match ShapeOf(p) {
          case Suffix(_) => v := t;
          case Prefix(x) =>
            v := [Other(x[0])] + t;
            assert v[0] != x[0];
          case Exact(w) => v := if w == t then "a" + t else t;
        }
        assert v[|v| - |t|..] == t;
      case Prefix(y) =>
        match ShapeOf(p) {
          case Suffix(s) =>
            v := y + [Other(s[|s| - 1])];
            assert |s| <= |v| ==> v[|v| - |s|..][|s| - 1] == v[|v| - 1];
          case Prefix(_) => v := y;
          case Exact(w) => v := if w == y then y + "a" else y;
        }
        assert v[..|y|] == y;
    }
  }

  /** The test is exact: it decides containment of the two patterns' languages. */
  lemma CoversIff(p: string, q: string)
    ensures Covers(p, q) <==> forall v :: WildcardMatch(q, v) ==> WildcardMatch(p, v)
  {
    hide Covers, WildcardMatch;
    if Covers(p, q) {
      forall v | WildcardMatch(q, v) ensures WildcardMatch(p, v) { CoversSound(p, q, v); }
    } else {
      var v := CoversComplete(p, q);
    }
  }

  /** `*.s` matches what ends in `.s`, with anything before it. */
  lemma SuffixPattern(s: string, v: string)
    requires s != ""
    ensures WildcardMatch("*." + s, v) <==> exists x :: v == x + "." + s
  {
    var p := "*." + s;
    assert p[1..] == "." + s && p[..2] == "*.";
    if EndsWith(v, "." + s) {
      var x := v[..|v| - |s| - 1];
      assert v == x + ("." + s) == x + "." + s;
    }
    if x :| v == x + "." + s {
      assert v[|v| - |s| - 1..] == "." + s;
    }
  }

  /** `p*` matches what starts with `p`, unless it reads as a suffix pattern. */
  lemma PrefixPattern(p: string, v: string)
    requires !StartsWith(p, "*.")
    ensures WildcardMatch(p + "*", v) <==> exists x :: v == p + x
  {
    var q := p + "*";
    assert q[..|q| - 1] == p;
    if StartsWith(v, p) {
      assert v == p + v[|p|..];
    }
    if p == "" { assert v == p + v; }
  }

  /** A pattern with no star matches itself alone. */
  lemma ExactPattern(p: string, v: string)
    requires forall i :: 0 <= i < |p| ==> p[i] != '*'
    ensures WildcardMatch(p, v) <==> v == p
  {
    assert p != "" ==> p[0] != '*' && p[|p| - 1] != '*';
    assert "*"[0] == '*' && "*."[0] == '*';
    assert |p| >= 2 ==> p[..2][0] == p[0];
  }

  // -------------------------------------------------------------- authority

  /** `s.rfind(c)`. */
  function RFind(s: string, c: char): (r: Option<nat>)
    ensures r.Some? ==> r.value < |s| && s[r.value] == c && forall j :: r.value < j < |s| ==> s[j] != c
    ensures r.None? ==> forall j :: 0 <= j < |s| ==> s[j] != c
  {
    if s == "" then None
    else if s[|s| - 1] == c then Some(|s| - 1)
    else RFind(s[..|s| - 1], c)
  }

  const HTTP_PORT := 80

  function SplitAuthority(authority: string): (u: Upstream)
    ensures 0 < u.port < 65536
  {
    var colon := RFind(authority, ':');
    if colon.Some? && colon.value + 1 < |authority| && AllDigits(authority[colon.value + 1..]) then
      var p := Atoi(authority[colon.value + 1..]);
      Upstream(authority[..colon.value], if 0 < p < 65536 then p else HTTP_PORT)
    else Upstream(authority, HTTP_PORT)
  }

  /** `split_authority` with its digit scan. */
  method Split(authority: string) returns (u: Upstream)
    ensures u == SplitAuthority(authority)
  {
    u := Upstream(authority, HTTP_PORT);
    var colon := RFind(authority, ':');
    if colon.Some? && colon.value + 1 < |authority| {
      var allDigits, i := true, colon.value + 1;
      while i < |authority|
        invariant colon.value + 1 <= i <= |authority|
        invariant allDigits && forall k :: colon.value + 1 <= k < i ==> IsDigit(authority[k])
      {
        if !IsDigit(authority[i]) {
          assert authority[colon.value + 1..][i - colon.value - 1] == authority[i];
          allDigits := false;
          break;
        }
        i := i + 1;
      }
      if allDigits {
        var p := Atoi(authority[colon.value + 1..]);
        u := Upstream(authority[..colon.value], if 0 < p < 65536 then p else HTTP_PORT);
      }
    }
  }

  /** A host and port written together are read back; without a colon the port is 80. */
  lemma AuthorityRoundTrip(host: string, port: nat)
    requires 0 < port < 65536
    ensures SplitAuthority(host + ":" + Decimal(port)) == Upstream(host, port)
    ensures (forall i :: 0 <= i < |host| ==> host[i] != ':') ==> SplitAuthority(host) == Upstream(host, HTTP_PORT)
  {
    hide Decimal, Atoi;
    var d := Decimal(port);
    var s := host + ":" + d;
    LastColon(host, d);
    assert s[..|host|] == host && s[|host| + 1..] == d;
    AtoiDecimal(port);
  }

  /** The last occurrence is the one with none after it. */
  lemma {:induction false} RFindIs(s: string, c: char, k: nat)
    requires k < |s| && s[k] == c && forall j :: k < j < |s| ==> s[j] != c
    ensures RFind(s, c) == Some(k)
  {
    hide RFind;
    var r := RFind(s, c);
    assert r.Some? && r.value == k;
  }

  lemma LastColon(host: string, d: string)
    requires AllDigits(d)
    ensures RFind(host + ":" + d, ':') == Some(|host|)
  {
    hide RFind, AllDigits;
    var s := host + ":" + d;
    DigitsHaveNoColon(d);
    ColonThen(host, d, s);
    RFindIs(s, ':', |host|);
  }

  lemma ColonThen(host: string, d: string, s: string)
    requires s == host + ":" + d && forall i :: 0 <= i < |d| ==> d[i] != ':'
    ensures |host| < |s| && s[|host|] == ':' && forall j :: |host| < j < |s| ==> s[j] != ':'
  {
    forall j | |host| < j < |s| ensures s[j] != ':' { assert s[j] == d[j - |host| - 1]; }
  }

  lemma DigitsHaveNoColon(d: string)
    requires AllDigits(d)
    ensures forall i :: 0 <= i < |d| ==> d[i] != ':'
  {
    forall i | 0 <= i < |d| ensures d[i] != ':' { assert IsDigit(d[i]); }
  }

  /** Equal up to letter case. */
  predicate SameFolded(a: string, b: string) { ToLower(a) == ToLower(b) }

  lemma FoldedAt(a: string, b: string, i: nat)
    requires SameFolded(a, b) && i < |a|
    ensures |a| == |b| && LowerChar(a[i]) == LowerChar(b[i])
    ensures IsDigit(a[i]) || IsDigit(b[i]) || a[i] == ':' || b[i] == ':' ==> a[i] == b[i]
  {
    assert ToLower(a)[i] == ToLower(b)[i];
  }

  lemma FoldedSlice(a: string, b: string, lo: nat, hi: nat)
    requires SameFolded(a, b) && lo <= hi <= |a|
    ensures |a| == |b| && SameFolded(a[lo..hi], b[lo..hi])
  {
    assert |a| == |ToLower(a)| == |b|;
    forall i | lo <= i < hi ensures LowerChar(a[i]) == LowerChar(b[i]) { FoldedAt(a, b, i); }
  }

  lemma FoldedDigits(a: string, b: string)
    requires SameFolded(a, b) && AllDigits(a)
    ensures a == b
  {
    assert |a| == |ToLower(a)| == |b|;
    forall i | 0 <= i < |a| ensures a[i] == b[i] { FoldedAt(a, b, i); }
  }

  lemma FoldedColon(a: string, b: string)
    requires SameFolded(a, b)
    ensures RFind(a, ':') == RFind(b, ':')
  {
    assert |a| == |ToLower(a)| == |b|;
    forall i | 0 <= i < |a| ensures a[i] == ':' <==> b[i] == ':' { FoldedAt(a, b, i); }
  }

  /** Letter case of an authority changes neither the port nor, up to case, the host. */
  lemma SplitFolded(a: string, b: string)
    requires SameFolded(a, b)
    ensures SplitAuthority(a).port == SplitAuthority(b).port
    ensures SameFolded(SplitAuthority(a).host, SplitAuthority(b).host)
  {
    hide ToLower, RFind, Atoi;
    FoldedColon(a, b);
    var colon := RFind(a, ':');
    FoldedSlice(a, b, 0, |a|);
    if colon.Some? {
      var n := colon.value;
      FoldedSlice(a, b, 0, n);
      FoldedSlice(a, b, n + 1, |a|);
      assert a[0..n] == a[..n] && b[0..n] == b[..n];
      assert a[n + 1..|a|] == a[n + 1..] && b[n + 1..|a|] == b[n + 1..];
      if AllDigits(a[n + 1..]) {
        FoldedDigits(a[n + 1..], b[n + 1..]);
      } else if AllDigits(b[n + 1..]) {
        FoldedDigits(b[n + 1..], a[n + 1..]);
      }
    }
  }

  // ---------------------------------------------------------------- routing

  /** The first route whose pattern matches the folded host, or the host itself. */
  function Resolve(routes: seq<Route>, host: string): Upstream {
    if routes == [] then SplitAuthority(host)
    else if WildcardMatch(routes[0].pattern, ToLower(host)) then routes[0].up
    else Resolve(routes[1..], host)
  }

  /** Hosts equal up to case are routed to the same port and, up to case, the same host, by every table. */
  lemma {:induction false} ResolveFolded(routes: seq<Route>, a: string, b: string)
    requires SameFolded(a, b)
    ensures Resolve(routes, a).port == Resolve(routes, b).port
    ensures SameFolded(Resolve(routes, a).host, Resolve(routes, b).host)
  {
    hide ToLower, WildcardMatch, SplitAuthority;
    if routes == [] {
      SplitFolded(a, b);
    } else if !WildcardMatch(routes[0].pattern, ToLower(a)) {
      ResolveFolded(routes[1..], a, b);
    }
  }

  // ------------------------------------------------------------------ check

  const HOST := "host"
  const PATH := "path"
  const METHOD := "method"

  predicate RuleMatches(r: Rule, req: Request) {
    if r.field == HOST then WildcardMatch(ToLower(r.pattern), ToLower(req.host))
    else if r.field == PATH then WildcardMatch(r.pattern, req.path)
    else r.field == METHOD && WildcardMatch(ToLower(r.pattern), ToLower(req.method_))
  }

  /** First match wins; the default applies when nothing matches. */
  function CheckRules(rules: seq<Rule>, policy: Decision, req: Request): Verdict {
    if rules == [] then Verdict(policy, "default")
    else if RuleMatches(rules[0], req) then Verdict(rules[0].decision, rules[0].source)
    else CheckRules(rules[1..], policy, req)
  }

  /** Requests for one resource: same method up to case, same folded host, same path. */
  predicate SameResource(a: Request, b: Request) {
    SameFolded(a.method_, b.method_) && SameFolded(a.host, b.host) && a.path == b.path
  }

  /** Requests for one resource get the identical verdict, rule included, from every rule list. */
  lemma {:induction false} VerdictOfResource(rules: seq<Rule>, policy: Decision, a: Request, b: Request)
    requires SameResource(a, b)
    ensures CheckRules(rules, policy, a) == CheckRules(rules, policy, b)
  {
    hide WildcardMatch, ToLower;
    if rules != [] { VerdictOfResource(rules[1..], policy, a, b); }
  }

  predicate SomeMatch(rules: seq<Rule>, req: Request) { exists r :: r in rules && RuleMatches(r, req) }

  /** Checking a list in two halves. */
  lemma {:induction false} CheckConcat(a: seq<Rule>, b: seq<Rule>, policy: Decision, req: Request)
    ensures CheckRules(a + b, policy, req) == if SomeMatch(a, req) then CheckRules(a, policy, req) else CheckRules(b, policy, req)
  {
    hide RuleMatches;
    if a == [] {
      assert a + b == b;
    } else {
      assert (a + b)[0] == a[0] && (a + b)[1..] == a[1..] + b;
      CheckConcat(a[1..], b, policy, req);
      if SomeMatch(a, req) && !RuleMatches(a[0], req) {
        var r :| r in a && RuleMatches(r, req);
        assert r in a[1..];
      }
    }
  }

  lemma {:induction false} UniformDecision(rules: seq<Rule>, d: Decision, policy: Decision, req: Request)
    requires forall r :: r in rules ==> r.decision == d
    ensures SomeMatch(rules, req) ==> CheckRules(rules, policy, req).decision == d
  {
    hide RuleMatches;
    if rules != [] && SomeMatch(rules, req) && !RuleMatches(rules[0], req) {
      var r :| r in rules && RuleMatches(r, req);
      assert r in rules[1..];
      UniformDecision(rules[1..], d, policy, req);
    }
  }

  /** Any reordering of a run of rules with one decision leaves every decision as it was. */
  lemma ReorderSameDecision(a: seq<Rule>, x: seq<Rule>, y: seq<Rule>, b: seq<Rule>, d: Decision, policy: Decision, req: Request)
    requires multiset(x) == multiset(y) && forall r :: r in x ==> r.decision == d
    ensures CheckRules(a + x + b, policy, req).decision == CheckRules(a + y + b, policy, req).decision
  {
    hide RuleMatches, CheckRules;
    assert forall r :: r in x <==> r in multiset(x);
    assert forall r :: r in y <==> r in multiset(y);
    assert a + x + b == a + (x + b) && a + y + b == a + (y + b);
    CheckConcat(a, x + b, policy, req);
    CheckConcat(a, y + b, policy, req);
    CheckConcat(x, b, policy, req);
    CheckConcat(y, b, policy, req);
    UniformDecision(x, d, policy, req);
    UniformDecision(y, d, policy, req);
  }

  /** The pattern as the check uses it: letter case matters for paths only. */
  function Effective(r: Rule): string { if r.field == PATH then r.pattern else ToLower(r.pattern) }

  lemma CoveredMatch(p: Rule, q: Rule, req: Request)
    requires p.field == q.field && Covers(Effective(p), Effective(q)) && RuleMatches(q, req)
    ensures RuleMatches(p, req)
  {
    hide WildcardMatch, Covers, ToLower;
    CoversSound(Effective(p), Effective(q),
      if p.field == HOST then ToLower(req.host) else if p.field == PATH then req.path else ToLower(req.method_));
  }

  /** A rule covered by an earlier rule on the same field is dead: deleting it changes no verdict at all. */
  lemma DropCovered(a: seq<Rule>, p: Rule, b: seq<Rule>, q: Rule, c: seq<Rule>, policy: Decision, req: Request)
    requires p.field == q.field && Covers(Effective(p), Effective(q))
    ensures CheckRules(a + [p] + b + [q] + c, policy, req) == CheckRules(a + [p] + b + c, policy, req)
  {
    hide RuleMatches, Covers, Effective, CheckRules;
    var front := a + [p] + b;
    assert a + [p] + b + [q] + c == front + ([q] + c);
    CheckConcat(front, [q] + c, policy, req);
    CheckConcat(front, c, policy, req);
    CheckConcat([q], c, policy, req);
    if RuleMatches(q, req) {
      CoveredMatch(p, q, req);
      assert p in front;
    } else {
      assert forall r :: r in [q] ==> r == q;
    }
  }

  // ----------------------------------------------------------------- config

  datatype Config = Config(rules: seq<Rule>, policy: Decision, routes: seq<Route>)

  datatype ConfigError = BadDefault | MissingPattern | BadField | BadRoute | UnknownDirective(verb: string)

  /** One line of configuration, read. */
  datatype Directive =
    | Skip
    | SetDefault(d: Decision)
    | AddRule(rule: Rule)
    | AddRoute(route: Route)
    | Malformed(error: ConfigError)

  function TokenEnd(s: string, i: nat): (j: nat)
    requires i <= |s|
    ensures i <= j <= |s|
    decreases |s| - i
  {
    if i < |s| && !IsSpace(s[i]) then TokenEnd(s, i + 1) else i
  }

  /** `stream >> word`: the next whitespace-separated word (empty at the end) and what follows it. */
  function Word(s: string): (string, string) {
    var i := SkipSpace(s, 0);
    var j := TokenEnd(s, i);
    (s[i..j], s[j..])
  }

  function ReadDirective(line: string): (r: Directive)
    ensures r.AddRule? ==> r.rule.pattern != "" && r.rule.source != "" && ToLower(r.rule.field) == r.rule.field
    ensures r.AddRule? ==> r.rule.field == HOST || r.rule.field == PATH || r.rule.field == METHOD
    ensures r.AddRoute? ==> r.route.pattern != "" && r.route.up.host != "" && 0 < r.route.up.port <= 65535
    ensures r.AddRoute? ==> ToLower(r.route.pattern) == r.route.pattern
  {
    var s := Trim(line);
    if s == "" || s[0] == '#' then Skip
    else
      var (word, rest) := Word(s);
      var verb := ToLower(word);
      if verb == "default" then
        var pol := ToLower(Word(rest).0);
        if pol == "allow" then SetDefault(Allow)
        else if pol == "deny" then SetDefault(Deny)
        else Malformed(BadDefault)
      else if verb == "allow" || verb == "deny" then
        var (w, rest') := Word(rest);
        ToLowerTwice(w);
        var field, pattern := ToLower(w), Word(rest').0;
        if pattern == "" then Malformed(MissingPattern)
        else if field != HOST && field != PATH && field != METHOD then Malformed(BadField)
        else AddRule(Rule(if verb == "allow" then Allow else Deny, field, pattern, s))
      else if verb == "route" then
        var (pattern, rest') := Word(rest);
        var (host, rest'') := Word(rest');
        var port := StrtolOf(rest'').value;
        if pattern == "" || host == "" || port <= 0 || port > 65535 then Malformed(BadRoute)
        else ToLowerTwice(pattern); AddRoute(Route(ToLower(pattern), Upstream(host, port)))
      else Malformed(UnknownDirective(verb))
  }

  function Apply(c: Config, d: Directive): Config {
    match d
    case SetDefault(p) => c.(policy := p)
    case AddRule(r) => c.(rules := c.rules + [r])
    case AddRoute(r) => c.(routes := c.routes + [r])
    case _ => c
  }

  /** The outcome of a load: the configuration reached, and the line number and error if it stopped. */
  datatype Outcome = Outcome(config: Config, error: Option<(nat, ConfigError)>)

  function LoadLines(c: Config, lines: seq<string>, lineno: nat): Outcome
    decreases |lines|
  {
    if lines == [] then Outcome(c, None)
    else
      var d := ReadDirective(lines[0]);
      if d.Malformed? then Outcome(c, Some((lineno + 1, d.error)))
      else LoadLines(Apply(c, d), lines[1..], lineno + 1)
  }

  function Load(c: Config, text: string): Outcome { LoadLines(c, Lines(text), 0) }

  // -------------------------------------------------------- printed directives

  /** A word of a configuration line. */
  predicate Token(w: string) { w != "" && forall i :: 0 <= i < |w| ==> !IsSpace(w[i]) }

  lemma {:induction false} TokenEndIs(s: string, i: nat, j: nat)
    requires i <= j <= |s| && (forall k :: i <= k < j ==> !IsSpace(s[k])) && (j < |s| ==> IsSpace(s[j]))
    ensures TokenEnd(s, i) == j
    decreases j - i
  {
    if i < j { TokenEndIs(s, i + 1, j); }
  }

  lemma WordThen(w: string, tail: string)
    requires Token(w) && (tail != "" ==> IsSpace(tail[0]))
    ensures Word(w + tail) == (w, tail) && Word(" " + w + tail) == (w, tail)
  {
    var s, s' := w + tail, " " + w + tail;
    assert s[0] == w[0] && s'[0] == ' ' && s'[1] == w[0];
    assert SkipSpace(s, 0) == 0 && SkipSpace(s', 1) == 1 && SkipSpace(s', 0) == 1;
    TokenEndIs(s, 0, |w|);
    assert forall k :: 1 <= k < 1 + |w| ==> s'[k] == w[k - 1];
    TokenEndIs(s', 1, 1 + |w|);
    assert s[0..|w|] == w && s[|w|..] == tail && s'[1..1 + |w|] == w && s'[1 + |w|..] == tail;
  }

  /** A line of words separated by single spaces has nothing to trim and is not a comment. */
  lemma LineOfWords(first: string, middle: string, last: string)
    requires Token(first) && Token(last) && first[0] != '#'
    ensures var s := first + " " + middle + last; Trim(s) == s && s != "" && s[0] != '#'
  {
    var s := first + " " + middle + last;
    assert s[0] == first[0] && s[|s| - 1] == last[|last| - 1];
    TrimTrimmed(s);
  }

  /** A rule written out is read back. */
  lemma RuleLineParses(verb: string, field: string, pattern: string)
    requires Token(verb) && Token(field) && Token(pattern)
    requires ToLower(verb) == "allow" || ToLower(verb) == "deny"
    requires ToLower(field) == HOST || ToLower(field) == PATH || ToLower(field) == METHOD
    ensures var line := verb + " " + field + " " + pattern;
            ReadDirective(line) ==
            AddRule(Rule(if ToLower(verb) == "allow" then Allow else Deny, ToLower(field), pattern, line))
  {
    hide Word, Trim, ToLower;
    NotComment(verb);
    LineOfWords(verb, field + " ", pattern);
    var line := verb + " " + field + " " + pattern;
    assert line == verb + " " + (field + " ") + pattern;
    WordThen(verb, " " + field + " " + pattern);
    assert line == verb + (" " + field + " " + pattern);
    WordThen(field, " " + pattern);
    assert " " + field + " " + pattern == " " + field + (" " + pattern);
    WordThen(pattern, "");
    assert " " + pattern == " " + pattern + "";
  }

  lemma NotComment(verb: string)
    requires verb != "" && (ToLower(verb) == "allow" || ToLower(verb) == "deny" || ToLower(verb) == "default" || ToLower(verb) == "route")
    ensures verb[0] != '#'
  {
    assert ToLower(verb)[0] == LowerChar(verb[0]);
  }

  /** A default policy written out is read back. */
  lemma DefaultLineParses(verb: string, policy: string)
    requires Token(verb) && Token(policy) && ToLower(verb) == "default"
    ensures ReadDirective(verb + " " + policy) ==
            if ToLower(policy) == "allow" then SetDefault(Allow)
            else if ToLower(policy) == "deny" then SetDefault(Deny)
            else Malformed(BadDefault)
  {
    hide Word, Trim, ToLower;
    NotComment(verb);
    LineOfWords(verb, "", policy);
    assert verb + " " + policy == verb + " " + "" + policy == verb + (" " + policy);
    WordThen(verb, " " + policy);
    WordThen(policy, "");
    assert " " + policy == " " + policy + "";
  }

  lemma StrtolAfterSpace(n: nat)
    requires n <= LONG_MAX
    ensures StrtolOf(" " + Decimal(n)).value == n
  {
    var s := " " + Decimal(n);
    FindNoByte(s, '\0', 0);
    assert IsDigit(s[1]);
    assert SkipSpace(s, 1) == 1 && SkipSpace(s, 0) == 1;
    DigitsFrom(s, 1);
    assert s[1..|s|] == Decimal(n);
  }

  lemma {:induction false} DigitsFrom(s: string, i: nat)
    requires i <= |s| && forall k :: i <= k < |s| ==> IsDigit(s[k])
    ensures DigitsEnd(s, i) == |s|
    decreases |s| - i
  {
    if i < |s| { DigitsFrom(s, i + 1); }
  }

  /** A route written out is read back. */
  lemma RouteLineParses(verb: string, pattern: string, host: string, port: nat)
    requires Token(verb) && Token(pattern) && Token(host) && ToLower(verb) == "route" && 0 < port <= 65535
    ensures ReadDirective(verb + " " + pattern + " " + host + " " + Decimal(port)) ==
            AddRoute(Route(ToLower(pattern), Upstream(host, port)))
  {
    hide Word, Trim, ToLower, Decimal, StrtolOf;
    var d := Decimal(port);
    NotComment(verb);
    LineOfWords(verb, pattern + " " + host + " ", d);
    var line := verb + " " + pattern + " " + host + " " + d;
    assert line == verb + " " + (pattern + " " + host + " ") + d;
    WordThen(verb, " " + pattern + " " + host + " " + d);
    assert line == verb + (" " + pattern + " " + host + " " + d);
    WordThen(pattern, " " + host + " " + d);
    assert " " + pattern + " " + host + " " + d == " " + pattern + (" " + host + " " + d);
    WordThen(host, " " + d);
    assert " " + host + " " + d == " " + host + (" " + d);
    StrtolAfterSpace(port);
  }

  // ---------------------------------------------------- loading in two parts

  lemma {:induction false} LoadConcat(c: Config, a: seq<string>, b: seq<string>, n: nat)
    ensures LoadLines(c, a + b, n) ==
            var first := LoadLines(c, a, n);
            if first.error.Some? then first else LoadLines(first.config, b, n + |a|)
    decreases |a|
  {
    hide ReadDirective, Apply;
    if a == [] {
      assert a + b == b;
    } else {
      assert (a + b)[0] == a[0] && (a + b)[1..] == a[1..] + b;
      var d := ReadDirective(a[0]);
      if !d.Malformed? { LoadConcat(Apply(c, d), a[1..], b, n + 1); }
    }
  }

  /** The line numbers of an error shifted by `n`. */
  function Shifted(o: Outcome, n: nat): Outcome {
    if o.error.None? then o else o.(error := Some((o.error.value.0 + n, o.error.value.1)))
  }

  lemma {:induction false} LoadShift(c: Config, lines: seq<string>, m: nat, n: nat)
    ensures LoadLines(c, lines, m + n) == Shifted(LoadLines(c, lines, m), n)
    decreases |lines|
  {
    hide ReadDirective, Apply;
    if lines != [] {
      var d := ReadDirective(lines[0]);
      if !d.Malformed? { LoadShift(Apply(c, d), lines[1..], m + 1, n); }
    }
  }

  /** The line breaks of a text. */
  function Newlines(s: string): nat {
    if s == "" then 0 else Newlines(s[..|s| - 1]) + if s[|s| - 1] == '\n' then 1 else 0
  }

  lemma {:induction false} NewlinesConcat(a: string, b: string)
    ensures Newlines(a + b) == Newlines(a) + Newlines(b)
  {
    if b == "" {
      assert a + b == a;
    } else {
      assert (a + b)[..|a + b| - 1] == a + b[..|b| - 1];
      NewlinesConcat(a, b[..|b| - 1]);
    }
  }

  lemma {:induction false} NoNewlines(s: string)
    requires NoNewline(s)
    ensures Newlines(s) == 0
  {
    if s != "" { NoNewlines(s[..|s| - 1]); }
  }

  lemma NewlineAlone()
    ensures Newlines("\n") == 1
  {
    assert "\n"[..0] == "";
  }

  lemma NewlineBetween(line: string, rest: string)
    requires NoNewline(line)
    ensures Newlines(line + "\n" + rest) == 1 + Newlines(rest)
  {
    hide Newlines;
    NewlineAlone();
    NoNewlines(line);
    NewlinesConcat(line, "\n");
    NewlinesConcat(line + "\n", rest);
  }

  lemma NoNewlineBefore(a: string, i: nat)
    requires i <= |a| && forall j: nat :: j < i ==> !MatchAt(a, "\n", j)
    ensures NoNewline(a[..i])
  {
    forall j | 0 <= j < i ensures a[j] != '\n' {
      assert !MatchAt(a, "\n", j);
      assert a[j..j + 1] == [a[j]];
    }
  }

  /** The empty line that a break after an already ended text makes. */
  function Gap(a: string): seq<string> { if Newlines(a) == |Lines(a)| then [""] else [] }

  /** Joining two texts by a line break joins their lines, with an empty line between if the first was already ended. */
  lemma {:induction false} LinesJoin(a: string, b: string)
    ensures Lines(a + "\n" + b) == Lines(a) + Gap(a) + Lines(b)
    ensures |Lines(a)| + |Gap(a)| == Newlines(a) + 1
    decreases |a|
  {
    hide Newlines, NoNewline, Lines, Gap, MatchAt;
    match Find(a, "\n", 0)
    case None =>
      NoNewlineBefore(a, |a|);
      assert a[..|a|] == a;
      LinesJoinLast(a, b);
    case Some(i) =>
      SplitAt(a, i);
      var first, rest := a[..i], a[i + 1..];
      NoNewlineBefore(a, i);
      LinesJoinCons(first, rest, b);
      LinesJoin(rest, b);
  }

  lemma SplitAt(a: string, i: nat)
    requires MatchAt(a, "\n", i)
    ensures i < |a| && a == a[..i] + "\n" + a[i + 1..]
  {
  }

  lemma LinesJoinLast(a: string, b: string)
    requires NoNewline(a)
    ensures Lines(a + "\n" + b) == Lines(a) + Gap(a) + Lines(b)
    ensures |Lines(a)| + |Gap(a)| == Newlines(a) + 1
  {
    hide Newlines;
    NoNewlines(a);
    LinesCons(a, b);
    FindNoByte(a, '\n', 0);
  }

  lemma LinesJoinCons(first: string, rest: string, b: string)
    requires NoNewline(first)
    ensures var a := first + "\n" + rest;
            && Lines(a) == [first] + Lines(rest)
            && Lines(a + "\n" + b) == [first] + Lines(rest + "\n" + b)
            && Newlines(a) == 1 + Newlines(rest)
            && Gap(a) == Gap(rest)
  {
    hide Newlines, Lines, NoNewline;
    LinesCons(first, rest);
    LinesCons(first, rest + "\n" + b);
    assert first + "\n" + rest + "\n" + b == first + "\n" + (rest + "\n" + b);
    NewlineBetween(first, rest);
  }

  /** Loading `a`, a line break, `b` is loading `a`, then `b` unless `a` failed: same success, same state, errors on the right line. */
  lemma LoadJoined(c: Config, a: string, b: string)
    ensures Load(c, a + "\n" + b) ==
            var first := Load(c, a);
            if first.error.Some? then first else Shifted(Load(first.config, b), Newlines(a) + 1)
  {
    hide ReadDirective, Apply, Newlines, Lines, LoadLines;
    LinesJoin(a, b);
    var gap := Gap(a);
    assert Lines(a) + gap + Lines(b) == Lines(a) + (gap + Lines(b));
    LoadConcat(c, Lines(a), gap + Lines(b), 0);
    var first := Load(c, a);
    if first.error.None? {
      LoadConcat(first.config, gap, Lines(b), |Lines(a)|);
      LoadGap(first.config, gap, |Lines(a)|);
      LoadShift(first.config, Lines(b), 0, Newlines(a) + 1);
    }
  }

  lemma LoadGap(c: Config, gap: seq<string>, n: nat)
    requires gap == [] || gap == [""]
    ensures LoadLines(c, gap, n) == Outcome(c, None)
  {
    assert ReadDirective("") == Skip;
  }

  // -------------------------------------------------- what order matters for

  function RulesOf(ds: seq<Directive>): seq<Rule> {
    if ds == [] then [] else (if ds[0].AddRule? then [ds[0].rule] else []) + RulesOf(ds[1..])
  }

  function RoutesOf(ds: seq<Directive>): seq<Route> {
    if ds == [] then [] else (if ds[0].AddRoute? then [ds[0].route] else []) + RoutesOf(ds[1..])
  }

  function PoliciesOf(ds: seq<Directive>): seq<Decision> {
    if ds == [] then [] else (if ds[0].SetDefault? then [ds[0].d] else []) + PoliciesOf(ds[1..])
  }

  function ApplyAll(c: Config, ds: seq<Directive>): Config
    decreases |ds|
  {
    if ds == [] then c else ApplyAll(Apply(c, ds[0]), ds[1..])
  }

  lemma {:induction false} RulesProjected(c: Config, ds: seq<Directive>)
    ensures ApplyAll(c, ds).rules == c.rules + RulesOf(ds)
    decreases |ds|
  {
    if ds != [] {
      var d, rest := ds[0], ds[1..];
      RulesProjected(Apply(c, d), rest);
      if d.AddRule? { assert c.rules + [d.rule] + RulesOf(rest) == c.rules + ([d.rule] + RulesOf(rest)); }
    }
  }

  lemma {:induction false} RoutesProjected(c: Config, ds: seq<Directive>)
    ensures ApplyAll(c, ds).routes == c.routes + RoutesOf(ds)
    decreases |ds|
  {
    if ds != [] {
      var d, rest := ds[0], ds[1..];
      RoutesProjected(Apply(c, d), rest);
      if d.AddRoute? { assert c.routes + [d.route] + RoutesOf(rest) == c.routes + ([d.route] + RoutesOf(rest)); }
    }
  }

  function LastOr(ps: seq<Decision>, p: Decision): Decision { if ps == [] then p else ps[|ps| - 1] }

  lemma {:induction false} PoliciesProjected(c: Config, ds: seq<Directive>)
    ensures ApplyAll(c, ds).policy == LastOr(PoliciesOf(ds), c.policy)
    decreases |ds|
  {
    if ds != [] {
      var d, rest := ds[0], ds[1..];
      PoliciesProjected(Apply(c, d), rest);
      if d.SetDefault? { assert PoliciesOf(ds) == [d.d] + PoliciesOf(rest); }
    }
  }

  /** A configuration is its rules in order, its routes in order, and its last default. */
  lemma ThreeProjections(c: Config, ds: seq<Directive>)
    ensures ApplyAll(c, ds) == Config(c.rules + RulesOf(ds), LastOr(PoliciesOf(ds), c.policy), c.routes + RoutesOf(ds))
  {
    hide ApplyAll, RulesOf, RoutesOf, PoliciesOf, LastOr;
    RulesProjected(c, ds);
    RoutesProjected(c, ds);
    PoliciesProjected(c, ds);
  }

  /** Each line read. */
  function Directives(lines: seq<string>): (r: seq<Directive>)
    ensures |r| == |lines|
  {
    if lines == [] then [] else [ReadDirective(lines[0])] + Directives(lines[1..])
  }

  lemma {:induction false} LoadIsApply(c: Config, lines: seq<string>, n: nat)
    ensures LoadLines(c, lines, n).error.None? <==> forall d :: d in Directives(lines) ==> !d.Malformed?
    ensures LoadLines(c, lines, n).error.None? ==> LoadLines(c, lines, n).config == ApplyAll(c, Directives(lines))
    decreases |lines|
  {
    hide ReadDirective, Apply;
    if lines != [] {
      var d := ReadDirective(lines[0]);
      if d.Malformed? {
        assert d in Directives(lines);
      } else {
        LoadIsApply(Apply(c, d), lines[1..], n + 1);
        assert Directives(lines)[1..] == Directives(lines[1..]);
      }
    }
  }

  /** Two good texts whose rules, routes and defaults come in the same orders load alike, however the three kinds are interleaved. */
  lemma InterleavingIrrelevant(c: Config, a: string, b: string)
    requires Load(c, a).error.None? && Load(c, b).error.None?
    requires var x, y := Directives(Lines(a)), Directives(Lines(b));
             RulesOf(x) == RulesOf(y) && RoutesOf(x) == RoutesOf(y) && PoliciesOf(x) == PoliciesOf(y)
    ensures Load(c, a).config == Load(c, b).config
  {
    hide Directives, RulesOf, RoutesOf, PoliciesOf, ApplyAll, Lines;
    LoadIsApply(c, Lines(a), 0);
    LoadIsApply(c, Lines(b), 0);
    ThreeProjections(c, Directives(Lines(a)));
    ThreeProjections(c, Directives(Lines(b)));
  }

  // ---------------------------------------------------------------- objects

  class RouteTable {
    var routes: seq<Route>

    constructor ()
      ensures routes == []
    {
      routes := [];
    }

    method Add(pattern: string, up: Upstream)
      modifies this
      ensures routes == old(routes) + [Route(ToLower(pattern), up)]
    {
      routes := routes + [Route(ToLower(pattern), up)];
    }

    /** The scan of the table. */
    method ResolveHost(host: string) returns (up: Upstream)
      ensures up == Resolve(routes, host)
    {
      var h := ToLower(host);
      var i := 0;
      while i < |routes|
        invariant 0 <= i <= |routes| && Resolve(routes, host) == Resolve(routes[i..], host)
      {
        assert routes[i..][0] == routes[i] && routes[i..][1..] == routes[i + 1..];
        if WildcardMatch(routes[i].pattern, h) { return routes[i].up; }
        i := i + 1;
      }
      up := Split(host);
    }
  }

  class AccessControl {
    var rules: seq<Rule>
    var policy: Decision
    const table: RouteTable

    ghost function Abs(): Config
      reads this, table
    {
      Config(rules, policy, table.routes)
    }

    constructor ()
      ensures Abs() == Config([], Allow, []) && fresh(table)
    {
      rules, policy := [], Allow;
      table := new RouteTable();
    }

    /** The field is folded; an empty source becomes the field and the pattern. */
    method AppendRule(d: Decision, field: string, pattern: string, source: string)
      modifies this
      ensures policy == old(policy)
      ensures rules == old(rules) + [Rule(d, ToLower(field), pattern, if source == "" then field + " " + pattern else source)]
    {
      rules := rules + [Rule(d, ToLower(field), pattern, if source == "" then field + " " + pattern else source)];
    }

    /** The scan of the rules. */
    method Check(req: Request) returns (v: Verdict)
      ensures v == CheckRules(rules, policy, req)
    {
      var i := 0;
      while i < |rules|
        invariant 0 <= i <= |rules| && CheckRules(rules, policy, req) == CheckRules(rules[i..], policy, req)
      {
        assert rules[i..][0] == rules[i] && rules[i..][1..] == rules[i + 1..];
        if RuleMatches(rules[i], req) { return Verdict(rules[i].decision, rules[i].source); }
        i := i + 1;
      }
      v := Verdict(policy, "default");
    }

    /** `load_string`: stops at the first malformed line, keeping what was loaded before it. */
    method LoadString(text: string) returns (error: Option<(nat, ConfigError)>)
      modifies this, table
      ensures Outcome(Abs(), error) == Load(old(Abs()), text)
    {
      hide ReadDirective;
      var rest, lineno := text, 0;
      while rest != ""
        invariant LoadLines(Abs(), Lines(rest), lineno) == Load(old(Abs()), text)
        decreases |rest|
      {
        var nl := Find(rest, "\n", 0);
        var line := if nl.None? then rest else rest[..nl.value];
        var tail := if nl.None? then "" else rest[nl.value + 1..];
        assert Lines(rest) == [line] + Lines(tail);
        lineno := lineno + 1;
        var d := ReadDirective(line);
        match d {
          case Skip =>
          case SetDefault(p) => policy := p;
          case AddRule(r) => AppendRule(r.decision, r.field, r.pattern, r.source);
          case AddRoute(r) => table.Add(r.pattern, r.up);
          case Malformed(e) => return Some((lineno, e));
        }
        rest := tail;
      }
      error := None;
    }
  }
}
