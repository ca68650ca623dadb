/** The cache key of `serve_one_request`: what it tells apart, and exactly when it does not. */
module CacheKey {
  import opened Text
  import opened Head
  import opened HttpRequest

  function Key(req: Request): string { req.method_ + " " + ToLower(req.host) + req.path }

  predicate NoByte(s: string, c: char) { forall i :: 0 <= i < |s| ==> s[i] != c }

  /** A host with no slash, and a path that starts with one. */
  predicate PlainTarget(req: Request) { NoByte(req.host, '/') && req.path != "" && req.path[0] == '/' }

  /** Two texts cut at the first occurrence of a byte. */
  lemma CutAtFirst(a: string, x: string, b: string, y: string, c: char)
    requires NoByte(a, c) && NoByte(b, c) && a + [c] + x == b + [c] + y
    ensures a == b && x == y
  {
    var s, t := a + [c] + x, b + [c] + y;
    assert s[|a|] == c && t[|b|] == c;
    assert |a| == |b|;
    assert s[..|a|] == a && t[..|b|] == b && s[|a| + 1..] == x && t[|b| + 1..] == y;
  }

  /** Keys are equal exactly when methods are equal and folded host and path read the same when run together. */
  lemma KeyIff(a: Request, b: Request)
    requires NoByte(a.method_, ' ') && NoByte(b.method_, ' ')
    ensures Key(a) == Key(b) <==> a.method_ == b.method_ && ToLower(a.host) + a.path == ToLower(b.host) + b.path
  {
    var x, y := ToLower(a.host) + a.path, ToLower(b.host) + b.path;
    assert Key(a) == a.method_ + [' '] + x;
    assert Key(b) == b.method_ + [' '] + y;
    if Key(a) == Key(b) { CutAtFirst(a.method_, x, b.method_, y, ' '); }
  }

  /** On plain targets equal keys mean equal method, folded host and path. */
  lemma KeySeparates(a: Request, b: Request)
    requires NoByte(a.method_, ' ') && NoByte(b.method_, ' ') && PlainTarget(a) && PlainTarget(b)
    ensures Key(a) == Key(b) <==> a.method_ == b.method_ && ToLower(a.host) == ToLower(b.host) && a.path == b.path
  {
    KeyIff(a, b);
    if Key(a) == Key(b) {
      assert a.path == ['/'] + a.path[1..] && b.path == ['/'] + b.path[1..];
      assert ToLower(a.host) + ['/'] + a.path[1..] == ToLower(a.host) + a.path;
      assert ToLower(b.host) + ['/'] + b.path[1..] == ToLower(b.host) + b.path;
      CutAtFirst(ToLower(a.host), a.path[1..], ToLower(b.host), b.path[1..], '/');
    }
  }

  lemma MethodHasNoSpace(raw: string)
    requires ParseRequest(raw).valid
    ensures NoByte(ParseRequest(raw).method_, ' ')
  {
    var head := raw[..FindHeaderEnd(raw).value];
    hide Finish, ReadFields, Lines, FindHeaderEnd;
    var line := StripCr(Lines(head)[0]);
    LineMethod(line, HttpRequest.BLANK.(headerBytes := |head|));
    FinishKeepsMethod(ParseLine(line, HttpRequest.BLANK.(headerBytes := |head|)), ReadFields(Lines(head)[1..], map[], true));
  }

  lemma FinishKeepsMethod(r: Request, h: Fields)
    ensures Finish(r, h).method_ == r.method_
  {
  }

  lemma LineMethod(line: string, r: Request)
    requires r.method_ == ""
    ensures NoByte(ParseLine(line, r).method_, ' ')
  {
    hide Find, Trim, NoByte;
    if Find(line, " ", 0).Some? { BeforeSpace(line, Find(line, " ", 0).value); }
    NoByteInEmpty();
  }

  lemma NoByteInEmpty()
    ensures NoByte("", ' ')
  {
  }

  lemma BeforeSpace(line: string, i: nat)
    requires i <= |line| && forall j: nat :: j < i ==> !MatchAt(line, " ", j)
    ensures NoByte(line[..i], ' ')
  {
    forall j | 0 <= j < i ensures line[j] != ' ' {
      assert !MatchAt(line, " ", j);
      assert line[j..j + 1] == [line[j]];
    }
  }

  // ---------------------------------------------------- requests as received

  const HTTP11 := "HTTP/1.1"

  /** A received request of two lines. */
  function Ask(verb: string, target: string, host: string): string {
    PrintHead(verb, target, HTTP11, [Field("Host", host)])
  }

  lemma AskParses(verb: string, target: string, host: string)
    requires PlainWord(verb) && PlainWord(target) && PlainValue(host) && host != ""
    requires !StartsWith(ToLower(target), "http://")
    ensures var r := ParseRequest(Ask(verb, target, host));
            r.valid && r.method_ == verb && r.host == host && r.path == target
  {
    hide ParseRequest, PrintHead, ValuesOf, PlainWord, PlainValue, Trimmed, ToLower;
    HostAlone(host);
    HostFieldPlain(host);
    VersionPlain();
    OriginForm(verb, host, target, HTTP11, [Field("Host", host)], "");
    assert Ask(verb, target, host) + "" == Ask(verb, target, host);
  }

  lemma HostAlone(host: string)
    ensures ValuesOf([Field("Host", host)], "host") == [host]
  {
    assert ToLower("Host") == "host";
    assert [Field("Host", host)][1..] == [];
  }

  lemma HostFieldPlain(host: string)
    requires PlainValue(host)
    ensures PlainFields([Field("Host", host)])
  {
  }

  lemma VersionPlain()
    ensures Trimmed(HTTP11) && NoNewline(HTTP11) && StartsWith(HTTP11, "HTTP/")
  {
    assert HTTP11[..5] == "HTTP/";
  }

  /** Two received requests for different resources can share a key: here a host holds a slash. */
  lemma KeyCollision()
    ensures var x, y := ParseRequest(Ask("GET", "/c", "a/b")), ParseRequest(Ask("GET", "/b/c", "a"));
            x.valid && y.valid && Key(x) == Key(y) && ToLower(x.host) != ToLower(y.host) && Ordinary(y)
  {
    hide ParseRequest, Ask;
    assert ToLower("/c")[0] == '/' && ToLower("/b/c")[0] == '/';
    AskParses("GET", "/c", "a/b");
    AskParses("GET", "/b/c", "a");
    assert ToLower("a/b") == "a/b" && ToLower("a") == "a" && |"a/b"| != |"a"|;
    assert "a/b" + "/c" == "a" + "/b/c";
    SameKey(ParseRequest(Ask("GET", "/c", "a/b")), ParseRequest(Ask("GET", "/b/c", "a")));
  }

  /** And here, with no slash in either host, a target does not start with one. */
  lemma KeyCollisionWithoutSlash()
    ensures var x, y := ParseRequest(Ask("GET", "m/i", "example.co")), ParseRequest(Ask("GET", "/i", "example.com"));
            && x.valid && y.valid && Key(x) == Key(y) && ToLower(x.host) != ToLower(y.host)
            && NoByte(x.host, '/') && Ordinary(y)
  {
    hide ParseRequest, Ask;
    assert ToLower("/i")[0] == '/' && ToLower("m/i")[0] == 'm';
    AskParses("GET", "m/i", "example.co");
    AskParses("GET", "/i", "example.com");
    assert |"example.co"| != |"example.com"|;
    assert ToLower("example.com") == "example.com" && ToLower("example.co") == "example.co";
    assert "example.co" + "m/i" == "example.com" + "/i";
    SameKey(ParseRequest(Ask("GET", "m/i", "example.co")), ParseRequest(Ask("GET", "/i", "example.com")));
  }

  lemma SameKey(a: Request, b: Request)
    requires a.method_ == b.method_ && ToLower(a.host) + a.path == ToLower(b.host) + b.path
    ensures Key(a) == Key(b)
  {
    assert Key(a) == a.method_ + " " + (ToLower(a.host) + a.path);
    assert Key(b) == b.method_ + " " + (ToLower(b.host) + b.path);
  }

  // -------------------------------------------------- exactly when it crosses

  predicate NoBlank(s: string) { forall i :: 0 <= i < |s| ==> !IsBlank(s[i]) }

  /** A request as programs send them: a plain target, and no blank in host or path. */
  predicate Ordinary(b: Request) { PlainTarget(b) && NoBlank(b.host) && NoBlank(b.path) }

  predicate OneResource(a: Request, b: Request) {
    a.method_ == b.method_ && ToLower(a.host) == ToLower(b.host) && a.path == b.path
  }

  /** Folded host and path, as the key runs them together. */
  function RunTogether(a: Request): string { ToLower(a.host) + a.path }

  /** The text reads as a folded host followed by a path: no blank, and a first slash that is not at the front. */
  predicate ReadsAsOrdinary(x: string) {
    && NoBlank(x)
    && match Find(x, "/", 0)
       case None => false
       case Some(i) => i > 0 && ToLower(x[..i]) == x[..i]
  }

  /** The request received as `raw` is ordinary, and shares the key of `a` though it names another resource. */
  predicate Crosses(a: Request, raw: string) {
    var b := ParseRequest(raw);
    b.valid && Ordinary(b) && Key(a) == Key(b) && !OneResource(a, b)
  }

  lemma FoldKeeps(s: string)
    ensures NoBlank(ToLower(s)) <==> NoBlank(s)
    ensures NoByte(ToLower(s), '/') <==> NoByte(s, '/')
    ensures ToLower(ToLower(s)) == ToLower(s)
  {
    ToLowerTwice(s);
    var t := ToLower(s);
    assert |t| == |s|;
    assert forall i :: 0 <= i < |s| ==> t[i] == LowerChar(s[i]);
  }

  /** The slash of an ordinary request is where its host ends. */
  lemma OrdinarySlash(b: Request)
    requires Ordinary(b) && b.host != ""
    ensures Find(RunTogether(b), "/", 0) == Some(|b.host|) && ReadsAsOrdinary(RunTogether(b))
  {
    hide Find, ToLower;
    var x := RunTogether(b);
    FoldKeeps(b.host);
    FindByte(x, '/', 0, |b.host|);
    assert x[..|b.host|] == ToLower(b.host);
  }

  lemma CrossingReads(a: Request, raw: string)
    requires NoByte(a.method_, ' ') && Crosses(a, raw)
    ensures !PlainTarget(a) && ReadsAsOrdinary(RunTogether(a))
  {
    hide ParseRequest, ReadsAsOrdinary, Key, ToLower, Finish;
    var b := ParseRequest(raw);
    MethodHasNoSpace(raw);
    var line := ValidParse(raw);
    KeyIff(a, b);
    OrdinarySlash(b);
    if PlainTarget(a) { KeySeparates(a, b); }
  }

  /** The request line and the fields a valid request was read from. */
  lemma ValidParse(raw: string) returns (line: string)
    requires ParseRequest(raw).valid
    ensures NoNewline(line)
    ensures var r := ParseLine(line, HttpRequest.BLANK.(headerBytes := ParseRequest(raw).headerBytes));
            r.parseError == NoError && ParseRequest(raw).method_ == r.method_ && ParseRequest(raw).host != ""
  {
    var head := raw[..FindHeaderEnd(raw).value];
    hide Finish, ReadFields, Lines, FindHeaderEnd, StripCr, ParseLine;
    var r := HttpRequest.BLANK.(headerBytes := |head|);
    LineHasNoLf(head);
    StripHasNoLf(Lines(head)[0]);
    line := StripCr(Lines(head)[0]);
    LineNotValid(line, r);
    FinishValid(ParseLine(line, r), ReadFields(Lines(head)[1..], map[], true));
  }

  lemma LineNotValid(line: string, r: Request)
    requires !r.valid
    ensures !ParseLine(line, r).valid
  {
    hide Find, Trim;
  }

  lemma FinishValid(r: Request, h: Fields)
    ensures Finish(r, h).method_ == r.method_ && (Finish(r, h).valid ==> Finish(r, h).host != "")
  {
    hide HostAndPath, ContentLengthOf, KeepAliveOf;
  }

  /** The ordinary request that the run-together text reads as. */
  lemma Reading(a: Request)
    requires PlainWord(a.method_) && !PlainTarget(a) && ReadsAsOrdinary(RunTogether(a))
    ensures var x := RunTogether(a);
            var i := Find(x, "/", 0).value;
            i <= |x| && Crosses(a, Ask(a.method_, x[i..], x[..i]))
  {
    hide ParseRequest, Ask, ToLower, Find, PlainWord;
    var x := RunTogether(a);
    var i := Find(x, "/", 0).value;
    SlashAt(x, i);
    var host, path := x[..i], x[i..];
    PathIsWord(path);
    NoBlankIsPlain(host);
    SlashNotAbsolute(path);
    AskParses(a.method_, path, host);
    var b := ParseRequest(Ask(a.method_, path, host));
    assert host + path == x;
    SameKey(a, b);
    if OneResource(a, b) { SameSplit(a, host, path); }
  }

  lemma SlashAt(x: string, i: nat)
    requires Find(x, "/", 0) == Some(i)
    ensures i < |x| && x[i] == '/' && NoByte(x[..i], '/')
  {
    hide Find;
    assert x[i..i + 1] == "/";
    forall j | 0 <= j < i ensures x[j] != '/' {
      assert !MatchAt(x, "/", j);
      assert x[j..j + 1] == [x[j]];
    }
  }

  lemma PathIsWord(path: string)
    requires path != "" && NoBlank(path)
    ensures PlainWord(path)
  {
  }

  lemma NoBlankIsPlain(host: string)
    requires NoBlank(host)
    ensures PlainValue(host)
  {
  }

  /** A request that reads the same when split at the slash is plain. */
  lemma SameSplit(a: Request, host: string, path: string)
    requires ToLower(a.host) == ToLower(host) && a.path == path && NoByte(host, '/') && path != "" && path[0] == '/'
    ensures PlainTarget(a)
  {
    FoldKeeps(host);
    FoldKeeps(a.host);
  }

  lemma MethodIsWord(raw: string)
    requires ParseRequest(raw).valid
    ensures PlainWord(ParseRequest(raw).method_)
  {
    hide ParseRequest, ParseLine;
    MethodHasNoSpace(raw);
    var line := ValidParse(raw);
    MethodOfLine(line, HttpRequest.BLANK.(headerBytes := ParseRequest(raw).headerBytes));
  }

  lemma LineHasNoLf(head: string)
    requires Lines(head) != []
    ensures NoNewline(Lines(head)[0])
  {
    hide Find;
    var i := Find(head, "\n", 0);
    var n := if i.Some? then i.value else |head|;
    forall j | 0 <= j < n ensures j < |head| && head[j] != '\n' {
      assert !MatchAt(head, "\n", j);
      assert head[j..j + 1] == [head[j]];
    }
    assert head[..|head|] == head;
  }

  lemma StripHasNoLf(line: string)
    requires NoNewline(line)
    ensures NoNewline(StripCr(line))
  {
  }

  lemma MethodOfLine(line: string, r: Request)
    requires NoNewline(line) && r.parseError == NoError && ParseLine(line, r).parseError == NoError
    ensures NoNewline(ParseLine(line, r).method_) && ParseLine(line, r).method_ != ""
  {
    hide Find, Trim;
  }

  /**
   Exactly when the key of a received request crosses to another resource: some ordinary request of another resource
   shares it if and only if the target is not plain and folded host and path, run together, read as an ordinary one.
   */
  lemma KeyCrossesIff(raw: string)
    requires ParseRequest(raw).valid
    ensures var a := ParseRequest(raw);
            (exists other :: Crosses(a, other)) <==> !PlainTarget(a) && ReadsAsOrdinary(RunTogether(a))
  {
    hide ParseRequest, PlainTarget, ReadsAsOrdinary, Crosses, Ask, PlainWord, NoByte;
    var a := ParseRequest(raw);
    MethodHasNoSpace(raw);
    if other :| Crosses(a, other) { CrossingReads(a, other); }
    if !PlainTarget(a) && ReadsAsOrdinary(RunTogether(a)) {
      MethodIsWord(raw);
      Reading(a);
    }
  }
}
