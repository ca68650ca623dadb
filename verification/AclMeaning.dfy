/** What rules, routes and configuration lines mean, stated apart from the scans that carry them out. */
module AclMeaning {
  import opened Text
  import opened HttpRequest
  import opened Acl

  // ------------------------------------------------------------- the verdict

  /** The rule speaks of the request: its pattern matches the folded host, the path or the folded method, as its field says. */
  predicate Speaks(r: Rule, req: Request) {
    || (r.field == "host" && WildcardMatch(ToLower(r.pattern), ToLower(req.host)))
    || (r.field == "path" && WildcardMatch(r.pattern, req.path))
    || (r.field == "method" && WildcardMatch(ToLower(r.pattern), ToLower(req.method_)))
  }

  /** Rule `i` is the first that speaks of the request; with `i` the number of rules, none does. */
  predicate FirstRule(rules: seq<Rule>, req: Request, i: nat) {
    && i <= |rules| && (forall j: nat :: j < i ==> !Speaks(rules[j], req))
    && (i < |rules| ==> Speaks(rules[i], req))
  }

  /** The first rule that speaks decides, and is named; when none does, the policy decides. */
  lemma {:induction false} FirstRuleDecides(rules: seq<Rule>, policy: Decision, req: Request, i: nat)
    requires FirstRule(rules, req, i)
    ensures CheckRules(rules, policy, req) ==
            if i < |rules| then Verdict(rules[i].decision, rules[i].source) else Verdict(policy, "default")
  {
    hide WildcardMatch, ToLower;
    if i > 0 {
      assert !Speaks(rules[0], req);
      assert forall j: nat :: j < i - 1 ==> rules[1..][j] == rules[j + 1];
      FirstRuleDecides(rules[1..], policy, req, i - 1);
    }
  }

  /** The first route whose pattern matches the folded host gives the upstream; when none does, the host itself. */
  predicate FirstRoute(routes: seq<Route>, host: string, i: nat) {
    && i <= |routes| && (forall j: nat :: j < i ==> !WildcardMatch(routes[j].pattern, ToLower(host)))
    && (i < |routes| ==> WildcardMatch(routes[i].pattern, ToLower(host)))
  }

  lemma {:induction false} FirstRouteServes(routes: seq<Route>, host: string, i: nat)
    requires FirstRoute(routes, host, i)
    ensures i < |routes| ==> Resolve(routes, host) == routes[i].up
    ensures i == |routes| ==> Resolve(routes, host) == SplitAuthority(host)
  {
    hide WildcardMatch, ToLower, SplitAuthority;
    if i > 0 {
      assert forall j: nat :: j < i - 1 ==> routes[1..][j] == routes[j + 1];
      FirstRouteServes(routes[1..], host, i - 1);
    }
  }

  /** Exactly one place is first, so that the verdict and the upstream are determined. */
  lemma SomeFirst(rules: seq<Rule>, routes: seq<Route>, req: Request) returns (i: nat, k: nat)
    ensures FirstRule(rules, req, i) && FirstRoute(routes, req.host, k)
  {
    hide Speaks, WildcardMatch, ToLower;
    i, k := 0, 0;
    while i < |rules| && !Speaks(rules[i], req)
      invariant i <= |rules| && forall j: nat :: j < i ==> !Speaks(rules[j], req)
    {
      i := i + 1;
    }
    while k < |routes| && !WildcardMatch(routes[k].pattern, ToLower(req.host))
      invariant k <= |routes| && forall j: nat :: j < k ==> !WildcardMatch(routes[j].pattern, ToLower(req.host))
    {
      k := k + 1;
    }
  }

  // --------------------------------------------------------------- authority

  /** A port out of range is replaced by 80; what follows the last colon but is no number belongs to the host. */
  lemma OddAuthority(host: string, port: nat, tail: string)
    requires tail != "" && !AllDigits(tail) && forall i :: 0 <= i < |tail| ==> tail[i] != ':'
    ensures (port == 0 || 65536 <= port < 0x8000_0000) ==> SplitAuthority(host + ":" + Decimal(port)) == Upstream(host, 80)
    ensures SplitAuthority(host + ":" + tail) == Upstream(host + ":" + tail, 80)
    ensures SplitAuthority(host + ":") == Upstream(host + ":", 80)
  {
    hide Decimal, Atoi, RFind, AllDigits;
    if port < 0x8000_0000 {
      var d := Decimal(port);
      LastColon(host, d);
      assert (host + ":" + d)[..|host|] == host && (host + ":" + d)[|host| + 1..] == d;
      AtoiDecimal(port);
    }
    ColonThen(host, tail, host + ":" + tail);
    RFindIs(host + ":" + tail, ':', |host|);
    assert (host + ":" + tail)[|host| + 1..] == tail;
    RFindIs(host + ":", ':', |host|);
  }

  // ----------------------------------------------------- configuration lines

  predicate AllBlank(s: string) { forall i :: 0 <= i < |s| ==> s[i] == ' ' || s[i] == '\t' || s[i] == '\r' || s[i] == '\n' }

  /** What follows a word on its line. */
  predicate AfterWord(tail: string) { tail != "" ==> tail[0] in " \t\r\n\U{0B}\U{0C}" }

  lemma {:induction false} BlankLeft(pre: string, s: string)
    requires AllBlank(pre) && (s != "" ==> !IsBlank(s[0]))
    ensures TrimLeft(pre + s) == s
    decreases |pre|
  {
    if pre == "" {
      assert pre + s == s;
    } else {
      assert (pre + s)[0] == pre[0] && (pre + s)[1..] == pre[1..] + s;
      BlankLeft(pre[1..], s);
    }
  }

  lemma {:induction false} BlankRight(s: string, post: string)
    requires AllBlank(post) && (s != "" ==> !IsBlank(s[|s| - 1]))
    ensures TrimRight(s + post) == s
    decreases |post|
  {
    if post == "" {
      assert s + post == s;
    } else {
      var n := |s + post| - 1;
      assert (s + post)[n] == post[|post| - 1] && (s + post)[..n] == s + post[..|post| - 1];
      BlankRight(s, post[..|post| - 1]);
    }
  }

  /** Blanks around a text are trimmed, and nothing else. */
  lemma TrimAround(pre: string, s: string, post: string)
    requires AllBlank(pre) && AllBlank(post) && Trimmed(s)
    ensures Trim(pre + s + post) == s
  {
    hide TrimLeft, TrimRight, AllBlank, IsBlank;
    assert pre + s + post == pre + (s + post);
    if s == "" {
      assert pre + (s + post) == (pre + post) + "";
      BothBlank(pre, post);
      BlankLeft(pre + post, "");
      BlankRight("", "");
      assert "" + "" == "";
    } else {
      assert s + post != "" && (s + post)[0] == s[0];
      BlankLeft(pre, s + post);
      BlankRight(s, post);
    }
  }

  lemma BothBlank(pre: string, post: string)
    requires AllBlank(pre) && AllBlank(post)
    ensures AllBlank(pre + post)
  {
  }

  /** Empty lines and comments are skipped, whatever is around them. */
  lemma SkippedLines(pre: string, comment: string, post: string)
    requires AllBlank(pre) && AllBlank(post)
    requires comment == "" || (comment[0] == '#' && Trimmed(comment))
    ensures ReadDirective(pre + comment + post) == Skip
  {
    hide Trim, Word, ToLower, StrtolOf;
    TrimAround(pre, comment, post);
  }

  /** Blanks around a line never matter. */
  lemma AroundIrrelevant(pre: string, line: string, post: string)
    requires AllBlank(pre) && AllBlank(post) && Trimmed(line)
    ensures ReadDirective(pre + line + post) == ReadDirective(line)
  {
    hide Word, ToLower, StrtolOf, Trim;
    TrimAround(pre, line, post);
    TrimTrimmed(line);
  }

  /** A word at the front of a line that is not a comment, and what follows it. */
  lemma FirstWord(verb: string, tail: string)
    requires Token(verb) && verb[0] != '#' && AfterWord(tail) && Trimmed(verb + tail)
    ensures var s := verb + tail; Trim(s) == s && s != "" && s[0] != '#' && Word(s) == (verb, tail)
  {
    hide Word, Trim;
    TrimTrimmed(verb + tail);
    WordThen(verb, tail);
    assert (verb + tail)[0] == verb[0];
  }

  /** A verb that is none of the four stops the load. */
  lemma UnknownVerb(verb: string, tail: string)
    requires Token(verb) && verb[0] != '#' && AfterWord(tail) && Trimmed(verb + tail)
    requires ToLower(verb) != "default" && ToLower(verb) != "allow" && ToLower(verb) != "deny" && ToLower(verb) != "route"
    ensures ReadDirective(verb + tail) == Malformed(UnknownDirective(ToLower(verb)))
  {
    hide Word, Trim, ToLower, StrtolOf;
    FirstWord(verb, tail);
  }

  predicate RuleVerb(verb: string) { ToLower(verb) == "allow" || ToLower(verb) == "deny" }

  lemma NoWord()
    ensures Word("") == ("", "")
  {
  }

  /** A rule without a pattern stops the load, whatever its field. */
  lemma NoPattern(verb: string, field: string)
    requires Token(verb) && Token(field) && RuleVerb(verb)
    ensures ReadDirective(verb) == Malformed(MissingPattern)
    ensures ReadDirective(verb + " " + field) == Malformed(MissingPattern)
  {
    hide Word, Trim, ToLower, StrtolOf;
    NotComment(verb);
    NoWord();
    assert verb + "" == verb;
    TokenTrimmed(verb, "");
    FirstWord(verb, "");
    assert verb + " " + field == verb + (" " + field);
    WordsTrimmed(verb, "", field);
    FirstWord(verb, " " + field);
    WordThen(field, "");
    assert " " + field + "" == " " + field;
  }

  lemma TokenTrimmed(a: string, tail: string)
    requires Token(a) && tail == ""
    ensures Trimmed(a + tail)
  {
    assert a + tail == a;
    assert !IsSpace(a[0]) && !IsSpace(a[|a| - 1]);
  }

  lemma WordsTrimmed(a: string, middle: string, b: string)
    requires Token(a) && Token(b)
    ensures Trimmed(a + (" " + middle + b))
  {
    var s := a + (" " + middle + b);
    assert s[0] == a[0] && s[|s| - 1] == b[|b| - 1];
    assert !IsSpace(a[0]) && !IsSpace(b[|b| - 1]);
  }

  /** So does a field that is none of the three. */
  lemma NoSuchField(verb: string, field: string, pattern: string)
    requires Token(verb) && Token(field) && Token(pattern) && RuleVerb(verb)
    requires ToLower(field) != "host" && ToLower(field) != "path" && ToLower(field) != "method"
    ensures ReadDirective(verb + " " + field + " " + pattern) == Malformed(BadField)
  {
    hide Word, Trim, ToLower, StrtolOf;
    NotComment(verb);
    var tail := " " + field + " " + pattern;
    assert verb + " " + field + " " + pattern == verb + tail;
    assert tail == " " + (field + " ") + pattern;
    WordsTrimmed(verb, field + " ", pattern);
    FirstWord(verb, tail);
    WordThen(field, " " + pattern);
    assert tail == " " + field + (" " + pattern);
    WordThen(pattern, "");
    assert " " + pattern + "" == " " + pattern;
  }

  /** And a route without a host, or with a port out of range. */
  lemma BadRoutes(verb: string, pattern: string, host: string, port: nat)
    requires Token(verb) && Token(pattern) && Token(host) && ToLower(verb) == "route" && (port == 0 || 65535 < port <= LONG_MAX)
    ensures ReadDirective(verb) == Malformed(BadRoute)
    ensures ReadDirective(verb + " " + pattern) == Malformed(BadRoute)
    ensures ReadDirective(verb + " " + pattern + " " + host) == Malformed(BadRoute)
    ensures ReadDirective(verb + " " + pattern + " " + host + " " + Decimal(port)) == Malformed(BadRoute)
  {
    hide Word, Trim, ToLower, StrtolOf, Decimal;
    NotComment(verb);
    RouteAlone(verb);
    RouteOnePart(verb, pattern);
    RouteTwoParts(verb, pattern, host);
    RouteThreeParts(verb, pattern, host, port);
  }

  lemma RouteAlone(verb: string)
    requires Token(verb) && verb[0] != '#' && ToLower(verb) == "route"
    ensures ReadDirective(verb) == Malformed(BadRoute)
  {
    hide Word, Trim, ToLower, StrtolOf;
    assert verb + "" == verb;
    NoWord();
    TokenTrimmed(verb, "");
    FirstWord(verb, "");
  }

  lemma RouteOnePart(verb: string, pattern: string)
    requires Token(verb) && Token(pattern) && verb[0] != '#' && ToLower(verb) == "route"
    ensures ReadDirective(verb + " " + pattern) == Malformed(BadRoute)
  {
    hide Word, Trim, ToLower, StrtolOf;
    NoWord();
    assert verb + " " + pattern == verb + (" " + pattern);
    WordsTrimmed(verb, "", pattern);
    assert " " + "" + pattern == " " + pattern;
    FirstWord(verb, " " + pattern);
    WordThen(pattern, "");
    assert " " + pattern + "" == " " + pattern;
  }

  lemma RouteTwoParts(verb: string, pattern: string, host: string)
    requires Token(verb) && Token(pattern) && Token(host) && verb[0] != '#' && ToLower(verb) == "route"
    ensures ReadDirective(verb + " " + pattern + " " + host) == Malformed(BadRoute)
  {
    hide Word, Trim, ToLower, StrtolOf;
    NothingIsZero();
    var tail := " " + pattern + " " + host;
    assert verb + " " + pattern + " " + host == verb + tail;
    assert tail == " " + (pattern + " ") + host;
    WordsTrimmed(verb, pattern + " ", host);
    FirstWord(verb, tail);
    WordThen(pattern, " " + host);
    assert tail == " " + pattern + (" " + host);
    WordThen(host, "");
    assert " " + host + "" == " " + host;
  }

  lemma NothingIsZero()
    ensures StrtolOf("").value == 0
  {
  }

  lemma RouteThreeParts(verb: string, pattern: string, host: string, port: nat)
    requires Token(verb) && Token(pattern) && Token(host) && verb[0] != '#' && ToLower(verb) == "route"
    requires port == 0 || 65535 < port <= LONG_MAX
    ensures ReadDirective(verb + " " + pattern + " " + host + " " + Decimal(port)) == Malformed(BadRoute)
  {
    hide Word, Trim, ToLower, StrtolOf, Decimal;
    var d := Decimal(port);
    DigitsAreToken(d);
    var tail := " " + pattern + " " + host + " " + d;
    assert verb + " " + pattern + " " + host + " " + d == verb + tail;
    assert tail == " " + (pattern + " " + host + " ") + d;
    WordsTrimmed(verb, pattern + " " + host + " ", d);
    FirstWord(verb, tail);
    WordThen(pattern, " " + host + " " + d);
    assert tail == " " + pattern + (" " + host + " " + d);
    WordThen(host, " " + d);
    assert " " + host + " " + d == " " + host + (" " + d);
    StrtolAfterSpace(port);
  }

  lemma DigitsAreToken(d: string)
    requires AllDigits(d) && d != ""
    ensures Token(d)
  {
    forall i | 0 <= i < |d| ensures !IsSpace(d[i]) { assert IsDigit(d[i]); }
  }

  // ----------------------------------------------------------- the whole text

  /** The first bad line stops the load: what precedes it is kept, and its number and error are reported. */
  lemma {:induction false} FirstBadLine(c: Config, good: seq<string>, bad: string, after: seq<string>, n: nat)
    requires (forall d :: d in Directives(good) ==> !d.Malformed?) && ReadDirective(bad).Malformed?
    ensures LoadLines(c, good + [bad] + after, n) ==
            Outcome(ApplyAll(c, Directives(good)), Some((n + |good| + 1, ReadDirective(bad).error)))
  {
    hide ReadDirective, Acl.Apply, Directives, ApplyAll;
    assert good + [bad] + after == good + ([bad] + after);
    LoadConcat(c, good, [bad] + after, n);
    LoadIsApply(c, good, n);
    assert ([bad] + after)[0] == bad;
  }
}
