/** `parse_request` and `expected_request_bytes` of http.hpp. */
module HttpRequest {
  import opened Text
  import opened Head

  /** `parse_error`; the field is empty on success. */
  datatype ParseError = NoError | IncompleteHeaders | EmptyRequest | MalformedLine | UnsupportedVersion | MissingHost

  datatype Request = Request(
    method_: string,
    target: string,
    version: string,
    path: string,
    host: string,
    headers: Fields,
    raw: string,
    headerBytes: nat,
    contentLength: int,
    keepAlive: bool,
    valid: bool,
    parseError: ParseError
  )

  const BLANK := Request("", "", "", "", "", map[], "", 0, -1, true, false, NoError)

  /** The strictly read Content-Length of a request: no overflow, no trailing bytes, not negative. */
  function ContentLengthOf(h: Fields): (r: int)
    ensures -1 <= r <= LONG_MAX
  {
    if "content-length" !in h then -1
    else
      var n := StrtolOf(h["content-length"]);
      if !n.overflow && StrtolConsumedAll(h["content-length"]) && n.value >= 0 then n.value else -1
  }

  predicate KeepAliveOf(version: string, h: Fields) {
    var byVersion := version == "HTTP/1.1";
    if "connection" !in h then byVersion
    else
      var v := ToLower(h["connection"]);
      if Contains(v, "close") then false else Contains(v, "keep-alive") || byVersion
  }

  /** (authority, path) of a request target; the authority is empty for origin-form. */
  function SplitTarget(target: string): (string, string) {
    if !StartsWith(ToLower(target), "http://") then ("", target)
    else
      match Find(target, "/", 7)
      case None => (target[7..], "/")
      case Some(i) => (target[7..i], target[i..])
  }

  /** The authority of the target, or failing that the Host field; and the path. */
  function HostAndPath(target: string, h: Fields): (string, string) {
    var (authority, path) := SplitTarget(target);
    (if authority == "" && "host" in h then h["host"] else authority, path)
  }

  /** Everything `parse_request` does after the field lines are read. */
  function Finish(r: Request, h: Fields): (r': Request)
    ensures r'.headerBytes == r.headerBytes
  {
    var (host, path) := HostAndPath(r.target, h);
    r.(path := path, host := host, headers := h, contentLength := ContentLengthOf(h),
    keepAlive := KeepAliveOf(r.version, h), valid := host != "",
    parseError := if host == "" then MissingHost else NoError)
  }

  /** The request line; on failure `parseError` is set. */
  function ParseLine(line: string, r: Request): (r': Request)
    ensures r'.headerBytes == r.headerBytes
  {
    match Find(line, " ", 0)
    case None => r.(parseError := MalformedLine)
    case Some(i) =>
      match Find(line, " ", i + 1)
      case None => r.(parseError := MalformedLine)
      case Some(j) =>
        var r' := r.(method_ := line[..i], target := line[i + 1..j], version := Trim(line[j + 1..]));
        if r'.method_ == "" || r'.target == "" then r'.(parseError := MalformedLine)
        else if !StartsWith(r'.version, "HTTP/") then r'.(parseError := UnsupportedVersion)
        else r'
  }

  /** The parse as a function of the bytes of the head alone. */
  function ParseHead(head: string): (r: Request)
    ensures r.headerBytes == |head|
  {
    var r := BLANK.(headerBytes := |head|);
    var lines := Lines(head);
    if lines == [] then r.(parseError := EmptyRequest)
    else
      var r' := ParseLine(StripCr(lines[0]), r);
      if r'.parseError != NoError then r' else Finish(r', ReadFields(lines[1..], map[], true))
  }

  function ParseRequest(raw: string): (r: Request)
    ensures FindHeaderEnd(raw).Some? ==> r.headerBytes == FindHeaderEnd(raw).value >= 2
  {
    match FindHeaderEnd(raw)
    case None => BLANK.(raw := raw, parseError := IncompleteHeaders)
    case Some(h) => ParseHead(raw[..h]).(raw := raw)
  }

  /** `parse_request` as it runs, line by line over a stream. */
  method Parse(raw: string) returns (r: Request)
    ensures r == ParseRequest(raw)
  {
    r := BLANK;
    var hend := FindHeaderEnd(raw);
    if hend.None? { return r.(raw := raw, parseError := IncompleteHeaders); }
    r := r.(headerBytes := hend.value);
    var stream := raw[..hend.value];
    var nl := Find(stream, "\n", 0);
    var line := if nl.None? then stream else stream[..nl.value];
    var rest := if nl.None? then "" else stream[nl.value + 1..];
    assert Lines(stream) == [line] + Lines(rest);
    r := ParseLine(StripCr(line), r);
    if r.parseError != NoError { return r.(raw := raw); }
    var h := ScanFields(rest, true);
    r := Finish(r, h).(raw := raw);
  }

  /** `expected_request_bytes`: head plus the declared body. */
  function ExpectedBytes(r: Request): nat {
    if r.contentLength > 0 then r.headerBytes + r.contentLength else r.headerBytes
  }

  /** Bytes after the head never influence the parse. */
  lemma ParseDependsOnHeadOnly(s: string, k: nat)
    requires Unambiguous(s) && k <= |s|
    requires FindHeaderEnd(s).Some? && FindHeaderEnd(s).value <= k
    ensures ParseRequest(s[..k]) == ParseRequest(s).(raw := s[..k])
  {
    HeaderEndOfPrefix(s, k);
    var h := FindHeaderEnd(s).value;
    assert s[..k][..h] == s[..h];
  }

  // -------------------------------------------------------------- round trip

  /** A word of the request line: not empty, no space, no LF. */
  predicate PlainWord(w: string) {
    w != "" && forall i :: 0 <= i < |w| ==> w[i] != ' ' && w[i] != '\n'
  }

  function PrintHead(m: string, target: string, version: string, fs: seq<Field>): string {
    Block([m + " " + target + " " + version] + FieldLines(fs))
  }

  /** The values of field `n` in order of appearance, names compared without case. */
  function ValuesOf(fs: seq<Field>, n: string): seq<string> {
    if fs == [] then []
    else (if ToLower(fs[0].name) == n then [fs[0].value] else []) + ValuesOf(fs[1..], n)
  }

  function JoinOnto(acc: string, vs: seq<string>): string
    decreases |vs|
  {
    if vs == [] then acc else JoinOnto(acc + ", " + vs[0], vs[1..])
  }

  /** The combined field value of section 5.3 of RFC 9110. */
  function Joined(vs: seq<string>): string
    requires vs != []
  {
    JoinOnto(vs[0], vs[1..])
  }

  /** Reading printed fields on top of `h` gives, for every name, the earlier value with the new ones appended. */
  lemma {:induction false} ReadPrinted(fs: seq<Field>, h: Fields, n: string)
    requires PlainFields(fs)
    ensures Accumulated(h, ValuesOf(fs, n), n, ReadFields(WithCr(FieldLines(fs)), h, true))
  {
    if fs != [] {
      var h1 := AddField(h, ToLower(fs[0].name), fs[0].value, true);
      ReadPrintedField(fs, h, true);
      ReadPrinted(fs[1..], h1, n);
      AccumulateOne(h, fs[0].value, ValuesOf(fs[1..], n), ToLower(fs[0].name), n,
                    ReadFields(WithCr(FieldLines(fs)), h, true));
    }
  }

  /** `h'` is `h` with the values `vs` of field `n` appended. */
  predicate Accumulated(h: Fields, vs: seq<string>, n: string, h': Fields) {
    && (n in h' <==> n in h || vs != [])
    && (n in h ==> n in h' && h'[n] == JoinOnto(h[n], vs))
    && (n !in h && vs != [] ==> n in h' && h'[n] == Joined(vs))
  }

  lemma AccumulateOne(h: Fields, v: string, vs: seq<string>, name: string, n: string, h': Fields)
    requires Accumulated(AddField(h, name, v, true), vs, n, h')
    ensures Accumulated(h, (if name == n then [v] else []) + vs, n, h')
  {
    var all := (if name == n then [v] else []) + vs;
    if name == n { assert all[0] == v && all[1..] == vs; } else { assert all == vs; }
  }

  lemma RequestLineParses(m: string, target: string, version: string, r: Request)
    requires PlainWord(m) && PlainWord(target) && Trimmed(version) && StartsWith(version, "HTTP/")
    requires r.parseError == NoError
    ensures ParseLine(m + " " + target + " " + version, r) == r.(method_ := m, target := target, version := version)
  {
    hide Find, Trim, Trimmed;
    TwoSpaces(m, target, version);
    TrimTrimmed(version);
    assert |"HTTP/"| == 5;
  }

  lemma TwoSpaces(m: string, target: string, version: string)
    requires PlainWord(m) && PlainWord(target)
    ensures var l, i := m + " " + target + " " + version, |m|;
            var j := i + 1 + |target|;
            && Find(l, " ", 0) == Some(i) && Find(l, " ", i + 1) == Some(j)
            && l[..i] == m && l[i + 1..j] == target && l[j + 1..] == version
  {
    hide Find;
    var l, i := m + " " + target + " " + version, |m|;
    var j := i + 1 + |target|;
    assert l[i] == ' ' && l[j] == ' ';
    assert forall k :: i + 1 <= k < j ==> l[k] == target[k - i - 1];
    FindByte(l, ' ', 0, i);
    FindByte(l, ' ', i + 1, j);
  }

  /**
   Printing a head and parsing it back recovers the request line, the size of the head
   and every field, whatever bytes follow; and the head found is cut independent.
   */
  lemma PrintParse(m: string, target: string, version: string, fs: seq<Field>, rest: string)
    requires PlainWord(m) && PlainWord(target) && PlainFields(fs)
    requires Trimmed(version) && NoNewline(version) && StartsWith(version, "HTTP/")
    ensures Unambiguous(PrintHead(m, target, version, fs) + rest)
    ensures var raw := PrintHead(m, target, version, fs) + rest;
            var r := ParseRequest(raw);
            && r.method_ == m && r.target == target && r.version == version && r.raw == raw
            && r.headerBytes == |PrintHead(m, target, version, fs)|
            && (forall n :: n in r.headers <==> ValuesOf(fs, n) != [])
            && (forall n :: n in r.headers ==> r.headers[n] == Joined(ValuesOf(fs, n)))
    ensures var r := ParseRequest(PrintHead(m, target, version, fs) + rest);
            && (r.host, r.path) == HostAndPath(target, r.headers)
            && r.contentLength == ContentLengthOf(r.headers)
            && r.keepAlive == KeepAliveOf(version, r.headers)
            && r.valid == (r.host != "")
  {
    var line := m + " " + target + " " + version;
    var ls := [line] + FieldLines(fs);
    forall i | 0 <= i < |ls| ensures PlainLine(ls[i]) {
      if i > 0 { FieldLinePlain(fs[i - 1]); }
    }
    var b := PrintHead(m, target, version, fs);
    BlockFound(ls, rest);
    assert (b + rest)[..|b|] == b;
    PrintedHeadParses(m, target, version, fs);
    var h := ReadFields(WithCr(FieldLines(fs)), map[], true);
    forall n: string ensures Accumulated(map[], ValuesOf(fs, n), n, h) { ReadPrinted(fs, map[], n); }
    assert ParseRequest(b + rest).headers == h;
  }

  lemma PrintedHeadParses(m: string, target: string, version: string, fs: seq<Field>)
    requires PlainWord(m) && PlainWord(target) && PlainFields(fs)
    requires Trimmed(version) && NoNewline(version) && StartsWith(version, "HTTP/")
    ensures var b := PrintHead(m, target, version, fs);
            ParseHead(b) == Finish(BLANK.(method_ := m, target := target, version := version, headerBytes := |b|),
                                   ReadFields(WithCr(FieldLines(fs)), map[], true))
  {
    var line := m + " " + target + " " + version;
    var ls := [line] + FieldLines(fs);
    forall i | 0 <= i < |ls| ensures NoNewline(ls[i]) {
      if i > 0 { FieldLinePlain(fs[i - 1]); }
    }
    LinesOfBlock(ls);
    assert ls[1..] == FieldLines(fs);
    assert WithCr(ls)[0] == line + "\r" && WithCr(ls)[1..] == WithCr(FieldLines(fs));
    StripAddedCr(line);
    RequestLineParses(m, target, version, BLANK.(headerBytes := |PrintHead(m, target, version, fs)|));
  }

  /**
   The absolute-form and the origin-form spelling of one resource (section 3.2.2 of RFC 9112)
   give the same host and path; the authority of the target wins over any Host field.
   */
  lemma SpellingsAgree(m: string, scheme: string, host: string, path: string, version: string,
                       fs: seq<Field>, gs: seq<Field>, rest: string, rest': string)
    requires PlainWord(m) && PlainWord(host) && PlainWord(path) && PlainFields(fs) && PlainFields(gs)
    requires Trimmed(version) && NoNewline(version) && StartsWith(version, "HTTP/")
    requires PlainWord(scheme) && ToLower(scheme) == "http://"
    requires path[0] == '/' && forall i :: 0 <= i < |host| ==> host[i] != '/'
    requires ValuesOf(gs, "host") == [host]
    ensures var a := ParseRequest(PrintHead(m, scheme + host + path, version, fs) + rest);
            var o := ParseRequest(PrintHead(m, path, version, gs) + rest');
            a.valid && o.valid && a.host == o.host == host && a.path == o.path == path
  {
    AbsoluteForm(m, scheme, host, path, version, fs, rest);
    SlashNotAbsolute(path);
    OriginForm(m, host, path, version, gs, rest');
  }

  lemma AbsoluteForm(m: string, scheme: string, host: string, path: string, version: string,
                     fs: seq<Field>, rest: string)
    requires PlainWord(m) && PlainWord(host) && PlainWord(path) && PlainFields(fs)
    requires Trimmed(version) && NoNewline(version) && StartsWith(version, "HTTP/")
    requires PlainWord(scheme) && ToLower(scheme) == "http://"
    requires path[0] == '/' && forall i :: 0 <= i < |host| ==> host[i] != '/'
    ensures var a := ParseRequest(PrintHead(m, scheme + host + path, version, fs) + rest);
            a.valid && a.host == host && a.path == path
  {
    PrintParse(m, scheme + host + path, version, fs, rest);
    SplitAbsolute(scheme, host, path);
  }

  /** Any target that is not absolute is the path, and the Host field the host. */
  lemma OriginForm(m: string, host: string, path: string, version: string, gs: seq<Field>, rest: string)
    requires PlainWord(m) && host != "" && PlainWord(path) && PlainFields(gs)
    requires Trimmed(version) && NoNewline(version) && StartsWith(version, "HTTP/")
    requires !StartsWith(ToLower(path), "http://") && ValuesOf(gs, "host") == [host]
    ensures var o := ParseRequest(PrintHead(m, path, version, gs) + rest);
            o.valid && o.method_ == m && o.host == host && o.path == path
  {
    hide *;
    JoinedOne(host);
    PrintParse(m, path, version, gs, rest);
    var o := ParseRequest(PrintHead(m, path, version, gs) + rest);
    assert "host" in o.headers && o.headers["host"] == host;
    OriginHostAndPath(path, o.headers, host);
  }

  lemma JoinedOne(v: string)
    ensures Joined([v]) == v
  {
  }

  lemma OriginHostAndPath(path: string, h: Fields, host: string)
    requires !StartsWith(ToLower(path), "http://") && "host" in h && h["host"] == host
    ensures HostAndPath(path, h) == (host, path)
  {
  }

  lemma SplitAbsolute(scheme: string, host: string, path: string)
    requires ToLower(scheme) == "http://" && path != "" && path[0] == '/'
    requires forall i :: 0 <= i < |host| ==> host[i] != '/'
    ensures SplitTarget(scheme + host + path) == (host, path)
  {
    var t := scheme + host + path;
    assert |scheme| == 7;
    assert ToLower(t)[..7] == ToLower(scheme);
    FindByte(t, '/', 7, 7 + |host|);
    assert t[7..7 + |host|] == host && t[7 + |host|..] == path;
  }

  lemma SlashNotAbsolute(path: string)
    requires path != "" && path[0] == '/'
    ensures !StartsWith(ToLower(path), "http://")
  {
    assert ToLower(path)[0] == '/' != "http://"[0];
  }
}
