/**
 The odd messages: what both parsers make of lengths that are no numbers, of request and status lines that are not
 as they should be, and of every Connection field.
 */
module OddMessages {
  import opened Text
  import opened Head
  import opened HttpRequest
  import opened Printing
  import HttpResponse

  // ----------------------------------------------------------------- numbers

  /** The text after a sign, if there is one. */
  function Unsigned(v: string): string { if v != "" && (v[0] == '-' || v[0] == '+') then v[1..] else v }

  predicate IsNumber(v: string) { Unsigned(v) != "" && AllDigits(Unsigned(v)) }

  /** The number written in `v`. */
  function NumberOf(v: string): int
    requires IsNumber(v)
  {
    if v[0] == '-' then 0 - DigitsValue(Unsigned(v)) else DigitsValue(Unsigned(v))
  }

  /** Text as a field value holds it: no blank in front, and no byte that ends a C string. */
  predicate CText(v: string) { (v != "" ==> !IsSpace(v[0])) && forall i: nat :: i < |v| ==> v[i] != '\0' }

  /** `strtol` reads the whole text exactly when it is a number, or nothing at all; then its value, saturated. */
  lemma StrtolReads(v: string)
    requires CText(v)
    ensures StrtolConsumedAll(v) <==> v == "" || IsNumber(v)
    ensures v == "" ==> StrtolOf(v) == Strtol(0, 0, false)
    ensures IsNumber(v) && -LONG_MAX <= NumberOf(v) <= LONG_MAX ==> StrtolOf(v).value == NumberOf(v) && !StrtolOf(v).overflow
    ensures IsNumber(v) && NumberOf(v) > LONG_MAX ==> StrtolOf(v).value == LONG_MAX && StrtolOf(v).overflow
    ensures IsNumber(v) && NumberOf(v) < 0 ==> StrtolOf(v).value < 0
  {
    hide DigitsValue;
    FindNoByte(v, '\0', 0);
    assert CStr(v) == v;
    assert SkipSpace(v, 0) == 0;
    var j := |v| - |Unsigned(v)|;
    DigitsFound(v, j);
    assert v[j..|v|] == Unsigned(v);
  }

  lemma {:induction false} DigitsFound(s: string, i: nat)
    requires i <= |s|
    ensures DigitsEnd(s, i) == |s| <==> AllDigits(s[i..])
    ensures DigitsEnd(s, i) == i <==> i == |s| || !IsDigit(s[i])
    decreases |s| - i
  {
    if i < |s| {
      assert s[i..] == [s[i]] + s[i + 1..];
      DigitsCons(s[i], s[i + 1..]);
      DigitsFound(s, i + 1);
    }
  }

  lemma DigitsCons(c: char, t: string)
    ensures AllDigits([c] + t) <==> IsDigit(c) && AllDigits(t)
  {
    var s := [c] + t;
    assert s[0] == c;
    forall k | 0 <= k < |t| ensures t[k] == s[k + 1] {}
  }

  /** What a request's Content-Length is taken for: a number in range, none at all, or refused and taken for none given. */
  function StrictLength(v: string): int {
    if v == "" then 0 else if IsNumber(v) && 0 <= NumberOf(v) <= LONG_MAX then NumberOf(v) else -1
  }

  /** And a response's: one out of range is saturated, not refused. */
  function SaturatedLength(v: string): int {
    if v == "" then 0 else if IsNumber(v) && 0 <= NumberOf(v) then (if NumberOf(v) > LONG_MAX then LONG_MAX else NumberOf(v)) else -1
  }

  lemma LengthsRead(h: Fields)
    requires "content-length" in h && CText(h["content-length"])
    ensures ContentLengthOf(h) == StrictLength(h["content-length"])
    ensures HttpResponse.ContentLengthOf(h) == SaturatedLength(h["content-length"])
  {
    hide StrtolOf, StrtolConsumedAll, IsNumber, NumberOf, CText;
    StrtolReads(h["content-length"]);
  }

  /** The length of a printed request, whatever its Content-Length says. */
  lemma RequestLength(m: string, target: string, version: string, fs: seq<Field>, rest: string, v: string)
    requires PlainWord(m) && PlainWord(target) && PlainFields(fs)
    requires Trimmed(version) && NoNewline(version) && StartsWith(version, "HTTP/")
    requires ValuesOf(fs, CONTENT_LENGTH) == [v] && CText(v)
    ensures ParseRequest(PrintHead(m, target, version, fs) + rest).contentLength == StrictLength(v)
  {
    hide ParseRequest, PrintHead, ValuesOf, PlainFields, PlainWord, Trimmed, HostAndPath, CText, StrictLength, SaturatedLength,
      ContentLengthOf, HttpResponse.ContentLengthOf, KeepAliveOf;
    PrintParse(m, target, version, fs, rest);
    JoinedOne(v);
    LengthsRead(ParseRequest(PrintHead(m, target, version, fs) + rest).headers);
  }

  /** And that of a printed response that is not chunked. */
  lemma ResponseLength(proto: string, status: nat, reason: string, fs: seq<Field>, rest: string)
    requires PlainWord(proto) && 100 <= status <= 599 && NoNewline(reason) && PlainFields(fs)
    requires ValuesOf(fs, TRANSFER_ENCODING) == [] && ValuesOf(fs, CONTENT_LENGTH) != []
    requires CText(ValuesOf(fs, CONTENT_LENGTH)[|ValuesOf(fs, CONTENT_LENGTH)| - 1])
    ensures HttpResponse.ParseResponse(PrintResponseHead(proto, Decimal(status), reason, fs) + rest).contentLength ==
            SaturatedLength(ValuesOf(fs, CONTENT_LENGTH)[|ValuesOf(fs, CONTENT_LENGTH)| - 1])
  {
    hide Decimal, HttpResponse.ParseResponse, PrintResponseHead, ValuesOf, PlainFields, PlainWord, CText, StrictLength, SaturatedLength,
      ContentLengthOf, HttpResponse.ContentLengthOf, Contains, ToLower;
    ResponsePrintParse(proto, status, reason, fs, rest);
    LengthsRead(HttpResponse.ParseResponse(PrintResponseHead(proto, Decimal(status), reason, fs) + rest).headers);
  }

  // ------------------------------------------------------------- persistence

  /** One of the values says so, in any letter case. */
  predicate Says(vs: seq<string>, pat: string) { exists i :: 0 <= i < |vs| && Contains(ToLower(vs[i]), pat) }

  /** A token without comma or blank lies within one of two joined values. */
  lemma WithinOne(a: string, b: string, pat: string)
    requires pat != "" && ',' !in pat && ' ' !in pat && Contains(a + ", " + b, pat)
    ensures Contains(a, pat) || Contains(b, pat)
  {
    hide Find;
    var s := a + ", " + b;
    var i := Find(s, pat, 0).value;
    assert s[i..i + |pat|] == pat;
    if i + |pat| <= |a| {
      assert a[i..i + |pat|] == pat;
      assert MatchAt(a, pat, i);
    } else {
      NotAcross(a, b, pat, i);
      var k := i - |a| - 2;
      assert b[k..k + |pat|] == pat;
      assert MatchAt(b, pat, k);
    }
  }

  lemma Across(a: string, b: string, pat: string, i: nat)
    requires MatchAt(a + ", " + b, pat, i) && i < |a| + 2 && i + |pat| > |a| && pat != ""
    ensures ',' in pat || ' ' in pat
  {
    var s := a + ", " + b;
    assert s[|a|] == ',' && s[|a| + 1] == ' ';
    if i <= |a| { assert pat[|a| - i] == s[|a|]; } else { assert pat[0] == s[|a| + 1]; }
  }

  lemma NotAcross(a: string, b: string, pat: string, i: nat)
    requires MatchAt(a + ", " + b, pat, i) && i + |pat| > |a| && ',' !in pat && ' ' !in pat && pat != ""
    ensures i >= |a| + 2
  {
    if i < |a| + 2 { Across(a, b, pat, i); }
  }

  lemma {:induction false} SaidInJoin(acc: string, vs: seq<string>, pat: string)
    requires pat != "" && ',' !in pat && ' ' !in pat && Contains(ToLower(JoinOnto(acc, vs)), pat)
    ensures Contains(ToLower(acc), pat) || Says(vs, pat)
    decreases |vs|
  {
    hide Contains, ToLower;
    if vs != [] {
      var acc' := acc + ", " + vs[0];
      SaidInJoin(acc', vs[1..], pat);
      if Contains(ToLower(acc'), pat) {
        ToLowerConcat(acc + ", ", vs[0]);
        ToLowerConcat(acc, ", ");
        CommaFolds();
        WithinOne(ToLower(acc), ToLower(vs[0]), pat);
      } else {
        var i :| 0 <= i < |vs[1..]| && Contains(ToLower(vs[1..][i]), pat);
        assert vs[1..][i] == vs[i + 1];
      }
    }
  }

  lemma CommaFolds()
    ensures ToLower(", ") == ", "
  {
  }

  /** Joining values neither hides nor makes up a token. */
  lemma SaidIff(vs: seq<string>, pat: string)
    requires vs != [] && pat != "" && ',' !in pat && ' ' !in pat
    ensures Contains(ToLower(Joined(vs)), pat) <==> Says(vs, pat)
  {
    hide Contains, ToLower;
    if Contains(ToLower(Joined(vs)), pat) {
      SaidInJoin(vs[0], vs[1..], pat);
      if !Contains(ToLower(vs[0]), pat) {
        var i :| 0 <= i < |vs[1..]| && Contains(ToLower(vs[1..][i]), pat);
        assert vs[1..][i] == vs[i + 1];
      }
    }
    if i :| 0 <= i < |vs| && Contains(ToLower(vs[i]), pat) {
      JoinedContains(vs[0], vs[1..], i - 1, pat);
    }
  }

  /** A connection is kept: never when any Connection field says close, else when one says keep-alive or by HTTP/1.1. */
  lemma PersistenceIff(m: string, target: string, version: string, fs: seq<Field>, rest: string)
    requires PlainWord(m) && PlainWord(target) && PlainFields(fs)
    requires Trimmed(version) && NoNewline(version) && StartsWith(version, "HTTP/")
    ensures ParseRequest(PrintHead(m, target, version, fs) + rest).keepAlive <==>
            !Says(ValuesOf(fs, CONNECTION), "close") && (Says(ValuesOf(fs, CONNECTION), "keep-alive") || version == "HTTP/1.1")
  {
    hide ParseRequest, PrintHead, ValuesOf, PlainFields, PlainWord, Trimmed, HostAndPath, Contains, ToLower, Joined, Says;
    PrintParse(m, target, version, fs, rest);
    var vs := ValuesOf(fs, CONNECTION);
    if vs == [] {
      NothingSaid("close");
      NothingSaid("keep-alive");
    } else {
      SaidIff(vs, "close");
      SaidIff(vs, "keep-alive");
    }
  }

  lemma NothingSaid(pat: string)
    ensures !Says([], pat)
  {
  }

  // ----------------------------------------------------------- request lines

  /** An absolute target without a path names the root. */
  lemma BareAuthority(m: string, scheme: string, host: string, version: string, fs: seq<Field>, rest: string)
    requires PlainWord(m) && PlainWord(host) && PlainFields(fs)
    requires Trimmed(version) && NoNewline(version) && StartsWith(version, "HTTP/")
    requires PlainWord(scheme) && ToLower(scheme) == "http://" && forall i :: 0 <= i < |host| ==> host[i] != '/'
    ensures var r := ParseRequest(PrintHead(m, scheme + host, version, fs) + rest);
            r.valid && r.host == host && r.path == "/"
  {
    hide ParseRequest, PrintHead, ValuesOf, PlainFields, Trimmed, Joined;
    PrintParse(m, scheme + host, version, fs, rest);
    SplitBare(scheme, host);
  }

  lemma SplitBare(scheme: string, host: string)
    requires ToLower(scheme) == "http://" && forall i :: 0 <= i < |host| ==> host[i] != '/'
    ensures SplitTarget(scheme + host) == (host, "/")
  {
    var t := scheme + host;
    assert |scheme| == 7;
    assert ToLower(t)[..7] == ToLower(scheme);
    assert forall j: nat :: 7 <= j < |t| ==> t[j] == host[j - 7];
    FindNoByte(t, '/', 7);
    assert t[7..] == host;
  }

  /** A head whose request line is refused is refused for that, whatever its fields. */
  lemma LineRefused(line: string, fs: seq<Field>, rest: string)
    requires PlainLine(line) && PlainFields(fs)
    requires ParseLine(line, HttpRequest.BLANK).parseError != NoError
    ensures var r := ParseRequest(Block([line] + FieldLines(fs)) + rest);
            !r.valid && r.parseError == ParseLine(line, HttpRequest.BLANK).parseError
  {
    hide ParseLine, ReadFields, FieldLines, FindHeaderEnd, Unambiguous, Block, WithCr, Lines, StripCr, PlainFields, PlainLine, Finish;
    var ls := [line] + FieldLines(fs);
    PlainHead(line, fs);
    var head := Block(ls);
    BlockFound(ls, rest);
    assert (head + rest)[..|head|] == head;
    HttpResponse.PlainIsNewlineFree(ls);
    LinesOfBlock(ls);
    FirstLine(line, FieldLines(fs));
    StripAddedCr(line);
    ErrorIgnoresSize(line, |head|);
  }

  lemma PlainHead(line: string, fs: seq<Field>)
    requires PlainLine(line) && PlainFields(fs)
    ensures PlainLines([line] + FieldLines(fs))
  {
    var ls := [line] + FieldLines(fs);
    forall i | 0 <= i < |ls| ensures PlainLine(ls[i]) {
      if i > 0 { FieldLinePlain(fs[i - 1]); }
    }
  }

  lemma ErrorIgnoresSize(line: string, n: nat)
    ensures var a, b := ParseLine(line, HttpRequest.BLANK.(headerBytes := n)), ParseLine(line, HttpRequest.BLANK);
            a.parseError == b.parseError && a.valid == b.valid == false
  {
    hide Find, Trim;
  }

  predicate NoSpace(s: string) { forall i :: 0 <= i < |s| ==> s[i] != ' ' }

  /** Which request lines are refused: fewer than two spaces, an empty method or target, or a version that does not begin with `HTTP/`. */
  lemma BadLines(a: string, b: string, c: string)
    requires NoSpace(a) && NoSpace(b) && Trimmed(c)
    ensures ParseLine(a, HttpRequest.BLANK).parseError == MalformedLine
    ensures ParseLine(a + " " + b, HttpRequest.BLANK).parseError == MalformedLine
    ensures ParseLine(a + " " + b + " " + c, HttpRequest.BLANK).parseError ==
            if a == "" || b == "" then MalformedLine else if !StartsWith(c, "HTTP/") then UnsupportedVersion else NoError
  {
    hide Find, Trim, Trimmed, NoSpace;
    OneWord(a);
    TwoWords(a, b);
    ThreeWords(a, b, c);
    TrimTrimmed(c);
  }

  lemma OneWord(a: string)
    requires NoSpace(a)
    ensures Find(a, " ", 0) == None
  {
    FindNoByte(a, ' ', 0);
  }

  lemma TwoWords(a: string, b: string)
    requires NoSpace(a) && NoSpace(b)
    ensures Find(a + " " + b, " ", 0) == Some(|a|) && Find(a + " " + b, " ", |a| + 1) == None
  {
    hide Find, NoSpace;
    TwoParts(a, b);
    OneFind(a + " " + b, |a|);
  }

  lemma TwoParts(a: string, b: string)
    requires NoSpace(a) && NoSpace(b)
    ensures var s := a + " " + b;
            && |a| < |s| && s[|a|] == ' '
            && (forall k: nat :: k < |a| ==> s[k] != ' ') && (forall k: nat :: |a| + 1 <= k < |s| ==> s[k] != ' ')
  {
    var s := a + " " + b;
    forall k: nat | |a| + 1 <= k < |s| ensures s[k] != ' ' { assert s[k] == b[k - |a| - 1]; }
  }

  lemma OneFind(s: string, i: nat)
    requires i < |s| && s[i] == ' '
    requires (forall k: nat :: k < i ==> s[k] != ' ') && (forall k: nat :: i + 1 <= k < |s| ==> s[k] != ' ')
    ensures Find(s, " ", 0) == Some(i) && Find(s, " ", i + 1) == None
  {
    hide Find;
    FindByte(s, ' ', 0, i);
    FindNoByte(s, ' ', i + 1);
  }

  /** `s` is `a`, `b` and `c` with one space between each two. */
  predicate ThreeIn(s: string, a: string, b: string, c: string) {
    var i, j := |a|, |a| + 1 + |b|;
    && j < |s| && s[i] == ' ' && s[j] == ' ' && s[..i] == a && s[i + 1..j] == b && s[j + 1..] == c
    && (forall k: nat :: k < i ==> s[k] != ' ') && (forall k: nat :: i + 1 <= k < j ==> s[k] != ' ')
  }

  lemma ThreeWords(a: string, b: string, c: string)
    requires NoSpace(a) && NoSpace(b)
    ensures ThreeIn(a + " " + b + " " + c, a, b, c)
    ensures Find(a + " " + b + " " + c, " ", 0) == Some(|a|) && Find(a + " " + b + " " + c, " ", |a| + 1) == Some(|a| + 1 + |b|)
  {
    hide Find, NoSpace, ThreeIn;
    ThreeParts(a, b, c);
    ThreeFinds(a + " " + b + " " + c, a, b, c);
  }

  lemma ThreeFinds(s: string, a: string, b: string, c: string)
    requires ThreeIn(s, a, b, c)
    ensures Find(s, " ", 0) == Some(|a|) && Find(s, " ", |a| + 1) == Some(|a| + 1 + |b|)
  {
    hide Find;
    FindByte(s, ' ', 0, |a|);
    FindByte(s, ' ', |a| + 1, |a| + 1 + |b|);
  }

  lemma ThreeParts(a: string, b: string, c: string)
    requires NoSpace(a) && NoSpace(b)
    ensures ThreeIn(a + " " + b + " " + c, a, b, c)
  {
    var s, j := a + " " + b + " " + c, |a| + 1 + |b|;
    assert s == a + (" " + b + " " + c);
    assert s[|a| + 1..j] == b;
    forall k: nat | |a| + 1 <= k < j ensures s[k] != ' ' { assert s[k] == b[k - |a| - 1]; }
  }

  /** A request that names no host, neither in its target nor in a field, is refused. */
  lemma HostRequired(m: string, target: string, version: string, fs: seq<Field>, rest: string)
    requires PlainWord(m) && PlainWord(target) && PlainFields(fs)
    requires Trimmed(version) && NoNewline(version) && StartsWith(version, "HTTP/")
    requires !StartsWith(ToLower(target), "http://") && ValuesOf(fs, "host") == []
    ensures var r := ParseRequest(PrintHead(m, target, version, fs) + rest); !r.valid && r.host == ""
  {
    hide ParseRequest, PrintHead, ValuesOf, PlainFields, PlainWord, Trimmed, Joined, ToLower;
    PrintParse(m, target, version, fs, rest);
  }

  // ------------------------------------------------------------ status lines

  /** The status line of a printed head, with a reason, without one, or with nothing after the protocol. */
  lemma StatusLines(proto: string, status: nat, reason: string)
    requires NoSpace(proto) && status < 0x8000_0000
    ensures HttpResponse.StatusOf(proto + " " + Decimal(status) + " " + reason) == status
    ensures HttpResponse.StatusOf(proto + " " + Decimal(status)) == status
    ensures HttpResponse.StatusOf(proto) == 0
  {
    hide Decimal, Atoi, Find, NoSpace;
    var d := Decimal(status);
    DigitsNoSpace(d);
    ThreeWords(proto, d, reason);
    TwoWords(proto, d);
    OneWord(proto);
    AtoiDecimal(status);
    assert (proto + " " + d)[|proto| + 1..] == d;
  }

  lemma DigitsNoSpace(d: string)
    requires AllDigits(d)
    ensures NoSpace(d)
  {
    NoSpaceInDigits(d);
  }

  /** A head is good exactly when its status line gives a status from 100 to 599. */
  lemma StatusDecides(line: string, fs: seq<Field>, rest: string)
    requires PlainLine(line) && PlainFields(fs)
    ensures var r := HttpResponse.ParseResponse(Block([line] + FieldLines(fs)) + rest);
            r.status == HttpResponse.StatusOf(line) && (r.valid <==> 100 <= HttpResponse.StatusOf(line) <= 599)
  {
    hide HttpResponse.StatusOf, HttpResponse.Frame, ReadFields, FieldLines, FindHeaderEnd, Unambiguous, Block, WithCr, Lines, StripCr,
      PlainFields, PlainLine;
    var ls := [line] + FieldLines(fs);
    PlainHead(line, fs);
    var head := Block(ls);
    BlockFound(ls, rest);
    assert (head + rest)[..|head|] == head;
    HttpResponse.PlainIsNewlineFree(ls);
    LinesOfBlock(ls);
    FirstLine(line, FieldLines(fs));
    StripAddedCr(line);
  }
}
