/** `parse_response_headers`, `response_complete`, `is_cacheable` of http.hpp and `build_response` of the server. */
module HttpResponse {
  import opened Text
  import opened Head
  import opened Chunked
  import opened HttpRequest

  datatype Response = Response(
    status: int,
    headers: Fields,
    headerBytes: nat,
    contentLength: int,
    chunked: bool,
    closeDelimited: bool,
    valid: bool
  )

  const BLANK := Response(0, map[], 0, -1, false, false, false)

  /** The Content-Length of a response; unlike that of a request, an overflow is not refused but saturated. */
  function ContentLengthOf(h: Fields): (r: int)
    ensures -1 <= r <= LONG_MAX
  {
    if "content-length" !in h then -1
    else
      var n := StrtolOf(h["content-length"]);
      if StrtolConsumedAll(h["content-length"]) && n.value >= 0 then n.value else -1
  }

  predicate ChunkedOf(h: Fields) {
    "transfer-encoding" in h && Contains(ToLower(h["transfer-encoding"]), "chunked")
  }

  /** The body-length rules of section 6.3 of RFC 9112: chunked, else a length, else until close. */
  function Frame(r: Response, h: Fields): (r': Response)
    ensures r'.headerBytes == r.headerBytes && r'.status == r.status && r'.headers == h && r'.valid
    ensures r'.closeDelimited == (!r'.chunked && r'.contentLength < 0)
    ensures r'.contentLength >= -1
  {
    var chunked := ChunkedOf(h);
    var length := if chunked then -1 else ContentLengthOf(h);
    r.(headers := h, chunked := chunked, contentLength := length,
    closeDelimited := !chunked && length < 0, valid := true)
  }

  /** The status of a status line; 0 when there is no space in it. */
  function StatusOf(line: string): int {
    match Find(line, " ", 0)
    case None => 0
    case Some(i) =>
      match Find(line, " ", i + 1)
      case None => Atoi(line[i + 1..])
      case Some(j) => Atoi(line[i + 1..j])
  }

  function ParseHead(head: string): (r: Response)
    ensures r.headerBytes == |head|
    ensures r.valid ==> r.closeDelimited == (!r.chunked && r.contentLength < 0)
  {
    var r, lines := BLANK.(headerBytes := |head|), Lines(head);
    if lines == [] then r
    else
      var r' := r.(status := StatusOf(StripCr(lines[0])));
      if r'.status < 100 || r'.status > 599 then r'
      else Frame(r', ReadFields(lines[1..], map[], false))
  }

  function ParseResponse(raw: string): (r: Response)
    ensures r.headerBytes <= |raw|
    ensures r.valid ==> r.closeDelimited == (!r.chunked && r.contentLength < 0)
    ensures FindHeaderEnd(raw).Some? ==> r.headerBytes == FindHeaderEnd(raw).value
  {
    match FindHeaderEnd(raw)
    case None => BLANK
    case Some(h) => ParseHead(raw[..h])
  }

  /** `parse_response_headers` as it runs, line by line over a stream. */
  method Parse(raw: string) returns (resp: Response)
    ensures resp == ParseResponse(raw)
  {
    resp := BLANK;
    var hend := FindHeaderEnd(raw);
    if hend.None? { return; }
    resp := resp.(headerBytes := hend.value);
    var stream := raw[..hend.value];
    var nl := Find(stream, "\n", 0);
    var line := if nl.None? then stream else stream[..nl.value];
    var rest := if nl.None? then "" else stream[nl.value + 1..];
    assert Lines(stream) == [line] + Lines(rest);
    resp := resp.(status := StatusOf(StripCr(line)));
    if resp.status < 100 || resp.status > 599 { return; }
    var h := ScanFields(rest, false);
    resp := Frame(resp, h);
  }

  /** Bytes after the head never influence the parse. */
  lemma ParseDependsOnHeadOnly(s: string, k: nat)
    requires Unambiguous(s) && k <= |s|
    requires FindHeaderEnd(s).Some? && FindHeaderEnd(s).value <= k
    ensures ParseResponse(s[..k]) == ParseResponse(s)
  {
    HeaderEndOfPrefix(s, k);
    assert s[..k][..FindHeaderEnd(s).value] == s[..FindHeaderEnd(s).value];
  }

  lemma FrameIgnoresSize(r: Response, h: Fields, n: nat)
    ensures Frame(r.(headerBytes := n), h) == Frame(r, h).(headerBytes := n)
  {
    hide ContentLengthOf, ChunkedOf;
  }

  /** The response in a head ended by LFLF is read alike however far the head is taken to reach. */
  lemma SameResponse(a: string, y: string)
    requires |a| >= 2 && a[|a| - 1] == '\n' && a[|a| - 2] == '\n'
    ensures ParseHead(a + y) == ParseHead(a).(headerBytes := |a + y|)
  {
    hide Lines, StatusOf, StripCr, Frame, ReadFields;
    TwoReadings(a, y, false);
    var status, h := StatusOf(StripCr(Lines(a)[0])), ReadFields(Lines(a)[1..], map[], false);
    FrameIgnoresSize(BLANK.(headerBytes := |a|, status := status), h, |a + y|);
  }

  /** On any stream at all, a head found early is read as the head of the whole: only its size can differ. */
  lemma EarlyParse(raw: string, j: nat)
    requires j <= |raw| && FindHeaderEnd(raw[..j]).Some?
    ensures FindHeaderEnd(raw).Some?
    ensures ParseResponse(raw[..j]) == ParseResponse(raw).(headerBytes := FindHeaderEnd(raw[..j]).value)
  {
    hide ParseHead, Find;
    PrefixHead(raw, j);
    var n := FindHeaderEnd(raw[..j]).value;
    assert raw[..j][..n] == raw[..n];
    if FindHeaderEnd(raw) != Some(n) {
      HeadsApart(raw);
      var h := FindHeaderEnd(raw).value;
      assert raw[..h] == raw[..n] + raw[n..h];
      SameResponse(raw[..n], raw[n..h]);
    }
  }

  /** The status never depends on bytes after the first end of head seen, not even on an ambiguous stream. */
  lemma StatusStable(a: string, b: string)
    requires FindHeaderEnd(a).Some?
    ensures FindHeaderEnd(a + b).Some? && ParseResponse(a + b).status == ParseResponse(a).status
  {
    HeadGrows(a, b);
    var ha, hb := a[..FindHeaderEnd(a).value], (a + b)[..FindHeaderEnd(a + b).value];
    hide FindHeaderEnd, Find, StatusOf, StripCr, ReadFields;
    StatusOfHead(ha);
    StatusOfHead(hb);
    FirstLineGrows(ha, hb);
  }

  lemma HeadGrows(a: string, b: string)
    requires FindHeaderEnd(a).Some?
    ensures FindHeaderEnd(a + b).Some? && FindHeaderEnd(a).value <= FindHeaderEnd(a + b).value
    ensures a[..FindHeaderEnd(a).value] <= (a + b)[..FindHeaderEnd(a + b).value]
  {
    if Find(a, CRLFCRLF, 0).Some? {
      FindExtend(a, b, CRLFCRLF, 0);
    } else {
      FindExtend(a, b, LFLF, 0);
      if Find(a + b, CRLFCRLF, 0).Some? {
        var p := Find(a + b, CRLFCRLF, 0).value;
        if p + 4 <= |a| { MatchAtExtend(a, b, CRLFCRLF, p); }
      }
    }
  }

  lemma StatusOfHead(head: string)
    requires head != ""
    ensures ParseHead(head).status == StatusOf(StripCr(Lines(head)[0]))
  {
    hide StatusOf, StripCr, ReadFields;
  }

  lemma FirstLineGrows(ha: string, hb: string)
    requires ha <= hb && ha != "" && ha[|ha| - 1] == '\n'
    ensures Lines(ha)[0] == Lines(hb)[0]
  {
    assert hb == ha + hb[|ha|..];
    assert ha[|ha| - 1..|ha|] == "\n";
    assert MatchAt(ha, "\n", |ha| - 1);
    FindExtend(ha, hb[|ha|..], "\n", 0);
  }

  /** Has the whole message arrived? Never true of a close-delimited one. */
  predicate ResponseComplete(raw: string, resp: Response) {
    && resp.valid
    && if resp.chunked then resp.headerBytes <= |raw| && Complete(raw[resp.headerBytes..])
       else resp.contentLength >= 0 && |raw| >= resp.headerBytes + resp.contentLength
  }

  /** A message once complete stays so, whatever follows it. */
  lemma CompleteStays(raw: string, more: string, resp: Response)
    requires ResponseComplete(raw, resp)
    ensures ResponseComplete(raw + more, resp)
  {
    hide Complete;
    if resp.chunked {
      Chunked.CompleteStays(raw[resp.headerBytes..], more);
      assert (raw + more)[resp.headerBytes..] == raw[resp.headerBytes..] + more;
    }
  }

  predicate IsCacheable(req: Request, resp: Response) {
    && (req.method_ == "GET" || req.method_ == "HEAD")
    && resp.status == 200
    && "authorization" !in req.headers
    && ("cache-control" in resp.headers ==>
          var v := ToLower(resp.headers["cache-control"]);
          !Contains(v, "no-store") && !Contains(v, "no-cache") && !Contains(v, "private"))
    && "set-cookie" !in resp.headers
  }

  // ---------------------------------------------------------- build_response

  const PROTOCOL := "HTTP/1.1"

  function HeadLines(status: nat, reason: string, length: nat, keep: bool, contentType: string): (r: seq<string>)
    ensures |r| == 4
  {
    [PROTOCOL + " " + Decimal(status) + " " + reason,
     "Content-Type" + ": " + contentType,
     "Content-Length" + ": " + Decimal(length),
     "Connection" + ": " + if keep then "keep-alive" else "close"]
  }

  /** `build_response`: four lines, each ended by CRLF, an empty line, and the body. */
  function Built(status: nat, reason: string, body: string, keep: bool, contentType: string): string {
    Block(HeadLines(status, reason, |body|, keep, contentType)) + body
  }

  /** The status is the word between the first two spaces. */
  lemma StatusWord(proto: string, word: string, reason: string)
    requires forall i :: 0 <= i < |proto| ==> proto[i] != ' '
    requires forall i :: 0 <= i < |word| ==> word[i] != ' '
    ensures StatusOf(proto + " " + word + " " + reason) == Atoi(word)
  {
    hide Atoi;
    var l := proto + " " + word + " " + reason;
    var i, j := |proto|, |proto| + 1 + |word|;
    assert l[i] == ' ' && l[j] == ' ';
    FindByte(l, ' ', 0, i);
    assert forall k :: i + 1 <= k < j ==> l[k] == word[k - i - 1];
    FindByte(l, ' ', i + 1, j);
    assert l[i + 1..j] == word;
  }

  lemma StatusLineParses(status: nat, reason: string)
    requires 100 <= status <= 599
    ensures StatusOf(PROTOCOL + " " + Decimal(status) + " " + reason) == status
  {
    hide Atoi, Decimal, StatusOf;
    AtoiDecimal(status);
    NoSpaceInDigits(Decimal(status));
    StatusWord(PROTOCOL, Decimal(status), reason);
  }

  lemma AnyFieldOf(name: string, value: string)
    requires PlainName(name)
    ensures FieldOf(name + ": " + value) == Some((ToLower(name), Trim(" " + value)))
  {
    hide Trim, ToLower;
    var l := name + ": " + value;
    assert l[|name|] == ':';
    FindByte(l, ':', 0, |name|);
    NameTrimmed(name);
    assert l[..|name|] == name;
    assert l[|name| + 1..] == " " + value;
  }

  lemma NameTrimmed(name: string)
    requires PlainName(name)
    ensures Trim(name) == name && ToLower(name) != ""
  {
    TrimTrimmed(name);
  }

  /** A field of a printed head, with a value that may have blanks around it. */
  lemma ReadAnyField(name: string, value: string, ls: seq<string>, h: Fields)
    requires PlainName(name)
    ensures ReadFields([name + ": " + value + "\r"] + ls, h, false) ==
            ReadFields(ls, h[ToLower(name) := Trim(" " + value)], false)
  {
    hide FieldOf, StripCr, Trim, ToLower, PlainName;
    var l := name + ": " + value;
    StripAddedCr(l);
    AnyFieldOf(name, value);
    assert l != "";
    assert ([l + "\r"] + ls)[1..] == ls;
  }

  lemma LowerNames()
    ensures ToLower("Content-Type") == "content-type"
    ensures ToLower("Content-Length") == "content-length"
    ensures ToLower("Connection") == "connection"
  {
  }

  lemma PlainNames()
    ensures PlainName("Content-Type") && PlainName("Content-Length") && PlainName("Connection")
  {
  }

  /** The field map of a built response. */
  lemma BuiltFields(contentType: string, length: nat, conn: string)
    ensures ReadFields(["Content-Type" + ": " + contentType + "\r",
                        "Content-Length" + ": " + Decimal(length) + "\r",
                        "Connection" + ": " + conn + "\r", "\r"], map[], false) ==
            map["content-type" := Trim(" " + contentType), "content-length" := Trim(" " + Decimal(length)),
                "connection" := Trim(" " + conn)]
  {
    hide Decimal, Trim, FieldOf, ToLower, PlainName, StripCr;
    PlainNames();
    LowerNames();
    var a, b, c := "Content-Type" + ": " + contentType + "\r", "Content-Length" + ": " + Decimal(length) + "\r",
                   "Connection" + ": " + conn + "\r";
    assert [a, b, c, "\r"] == [a] + [b, c, "\r"];
    assert [b, c, "\r"] == [b] + [c, "\r"];
    assert [c, "\r"] == [c] + ["\r"];
    ReadAnyField("Content-Type", contentType, [b, c, "\r"], map[]);
    ReadAnyField("Content-Length", Decimal(length), [c, "\r"], map["content-type" := Trim(" " + contentType)]);
    ReadAnyField("Connection", conn, ["\r"],
                 map["content-type" := Trim(" " + contentType), "content-length" := Trim(" " + Decimal(length))]);
    ReadEnd(map["content-type" := Trim(" " + contentType), "content-length" := Trim(" " + Decimal(length)),
                "connection" := Trim(" " + conn)]);
  }

  lemma ReadEnd(h: Fields)
    ensures ReadFields(["\r"], h, false) == h
  {
  }

  lemma DigitsTrimmed(s: string)
    requires s != "" && AllDigits(s)
    ensures Trim(" " + s) == s
  {
    assert IsDigit(s[0]) && IsDigit(s[|s| - 1]);
    TrimTrimmed(s);
  }

  lemma FrameBuilt(r: Response, contentType: string, length: nat, conn: string)
    requires length <= LONG_MAX
    ensures var f := Frame(r, map["content-type" := contentType, "content-length" := Decimal(length), "connection" := conn]);
            !f.chunked && f.contentLength == length
  {
    hide Decimal, StrtolOf;
    StrtolDecimal(length);
  }

  lemma HeadLinesPlain(status: nat, reason: string, length: nat, keep: bool, contentType: string)
    requires NoNewline(reason) && NoNewline(contentType)
    ensures PlainLines(HeadLines(status, reason, length, keep, contentType))
  {
    hide Decimal;
    NoSpaceInDigits(Decimal(status));
    NoSpaceInDigits(Decimal(length));
  }

  lemma BuiltHeadParses(status: nat, reason: string, length: nat, keep: bool, contentType: string)
    requires 100 <= status <= 599 && NoNewline(reason) && NoNewline(contentType) && length <= LONG_MAX
    ensures var r := ParseHead(Block(HeadLines(status, reason, length, keep, contentType)));
            && r.valid && r.status == status && !r.chunked && r.contentLength == length
            && r.headers == BuiltHeaders(contentType, length, keep)
  {
    hide Decimal, Trim, FieldOf, ToLower, StripCr, ReadFields, StatusOf, PlainLine, Frame;
    var conn := if keep then "keep-alive" else "close";
    var ls := HeadLines(status, reason, length, keep, contentType);
    HeadLinesPlain(status, reason, length, keep, contentType);
    PlainIsNewlineFree(ls);
    LinesOfBlock(ls);
    FourLines(ls[0], ls[1], ls[2], ls[3]);
    StripAddedCr(ls[0]);
    StatusLineParses(status, reason);
    BuiltFields(contentType, length, conn);
    DigitsTrimmed(Decimal(length));
    var head := Block(ls);
    FrameBuilt(BLANK.(headerBytes := |head|, status := status), Trim(" " + contentType), length, Trim(" " + conn));
    ConnectionTrimmed();
  }

  /** The fields as they are read back. */
  function BuiltHeaders(contentType: string, length: nat, keep: bool): Fields {
    map["content-type" := Trim(" " + contentType), "content-length" := Decimal(length),
        "connection" := if keep then "keep-alive" else "close"]
  }

  lemma ConnectionTrimmed()
    ensures Trim(" keep-alive") == "keep-alive" && Trim(" close") == "close"
    ensures " " + "keep-alive" == " keep-alive" && " " + "close" == " close"
  {
    hide Trim;
    TrimTrimmed("keep-alive");
    TrimTrimmed("close");
    assert " " + "keep-alive" == " keep-alive" && " " + "close" == " close";
  }

  lemma PlainIsNewlineFree(ls: seq<string>)
    requires PlainLines(ls)
    ensures forall i :: 0 <= i < |ls| ==> NoNewline(ls[i])
  {
    forall i | 0 <= i < |ls| ensures NoNewline(ls[i]) { assert PlainLine(ls[i]); }
  }

  lemma FourLines(a: string, b: string, c: string, d: string)
    ensures WithCr([a, b, c, d]) == [a + "\r"] + [b + "\r", c + "\r", d + "\r", "\r"]
  {
    assert [a, b, c, d][1..] == [b, c, d] && [b, c, d][1..] == [c, d] && [c, d][1..] == [d];
    assert WithCr([d]) == [d + "\r", "\r"];
    assert WithCr([c, d]) == [c + "\r", d + "\r", "\r"];
    assert WithCr([b, c, d]) == [b + "\r", c + "\r", d + "\r", "\r"];
  }

  /**
   A built response parses back to its status, its three fields and its body, and of all its prefixes,
   each parsed from its own bytes, exactly the whole is complete.
   */
  lemma BuiltRoundTrip(status: nat, reason: string, body: string, keep: bool, contentType: string)
    requires 100 <= status <= 599 && NoNewline(reason) && NoNewline(contentType) && |body| <= LONG_MAX
    ensures var raw := Built(status, reason, body, keep, contentType);
            var r := ParseResponse(raw);
            && r.valid && r.status == status && !r.chunked && r.contentLength == |body|
            && r.headers == BuiltHeaders(contentType, |body|, keep) && raw[r.headerBytes..] == body
            && forall k :: 0 <= k <= |raw| ==> (ResponseComplete(raw[..k], ParseResponse(raw[..k])) <==> k == |raw|)
  {
    hide HeadLines, ParseHead, FindHeaderEnd, Unambiguous;
    var ls := HeadLines(status, reason, |body|, keep, contentType);
    var head := Block(ls);
    var raw := Built(status, reason, body, keep, contentType);
    HeadLinesPlain(status, reason, |body|, keep, contentType);
    BlockFound(ls, body);
    assert raw[..|head|] == head;
    BuiltHeadParses(status, reason, |body|, keep, contentType);
    forall k | 0 <= k <= |raw|
      ensures ResponseComplete(raw[..k], ParseResponse(raw[..k])) <==> k == |raw|
    {
      HeaderEndOfPrefix(raw, k);
      if |head| <= k { ParseDependsOnHeadOnly(raw, k); }
    }
  }
}
