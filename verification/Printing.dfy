/**
 What a printed message means once parsed: the persistence a request asks for, and the head and
 framing of a response. Printing is the partner of both parsers.
 */
module Printing {
  import opened Text
  import opened Head
  import opened HttpRequest
  import HttpResponse

  // ----------------------------------------------------- request persistence

  lemma ContainsWithin(a: string, s: string, b: string, pat: string)
    requires Contains(s, pat)
    ensures Contains(a + s + b, pat)
  {
    var i, t := Find(s, pat, 0).value, a + s + b;
    assert t[|a| + i..|a| + i + |pat|] == s[i..i + |pat|];
    assert MatchAt(t, pat, |a| + i);
  }

  /** Folding repeated fields into one keeps every value visible. */
  lemma {:induction false} JoinedContains(acc: string, vs: seq<string>, i: int, pat: string)
    requires -1 <= i < |vs| && Contains(ToLower(if i < 0 then acc else vs[i]), pat)
    ensures Contains(ToLower(JoinOnto(acc, vs)), pat)
    decreases |vs|
  {
    hide Contains, ToLower;
    if vs != [] {
      var acc' := acc + ", " + vs[0];
      if i <= 0 {
        ToLowerConcat(acc + ", ", vs[0]);
        ToLowerConcat(acc, ", ");
        if i < 0 {
          ContainsWithin("", ToLower(acc), ToLower(", ") + ToLower(vs[0]), pat);
          assert "" + ToLower(acc) + (ToLower(", ") + ToLower(vs[0])) == ToLower(acc) + ToLower(", ") + ToLower(vs[0]);
        } else {
          ContainsWithin(ToLower(acc) + ToLower(", "), ToLower(vs[0]), "", pat);
          assert ToLower(acc) + ToLower(", ") + ToLower(vs[0]) + "" == ToLower(acc) + ToLower(", ") + ToLower(vs[0]);
        }
        JoinedContains(acc', vs[1..], -1, pat);
      } else {
        JoinedContains(acc', vs[1..], i - 1, pat);
      }
    }
  }

  const CLOSE := "close"
  const CONNECTION := "connection"

  /** No Connection field: persistent exactly for HTTP/1.1. */
  lemma PersistentByDefault(m: string, target: string, version: string, fs: seq<Field>, rest: string)
    requires PlainWord(m) && PlainWord(target) && PlainFields(fs)
    requires Trimmed(version) && NoNewline(version) && StartsWith(version, "HTTP/")
    requires ValuesOf(fs, CONNECTION) == []
    ensures ParseRequest(PrintHead(m, target, version, fs) + rest).keepAlive <==> version == "HTTP/1.1"
  {
    hide ParseRequest, PrintHead, ValuesOf, PlainFields, PlainWord, Trimmed, Joined, HostAndPath;
    PrintParse(m, target, version, fs, rest);
  }

  /** A Connection field that says close, in any letter case and in any of its repetitions, ends the connection. */
  lemma CloseCloses(m: string, target: string, version: string, fs: seq<Field>, rest: string, i: nat)
    requires PlainWord(m) && PlainWord(target) && PlainFields(fs)
    requires Trimmed(version) && NoNewline(version) && StartsWith(version, "HTTP/")
    requires i < |ValuesOf(fs, CONNECTION)| && Contains(ToLower(ValuesOf(fs, CONNECTION)[i]), CLOSE)
    ensures !ParseRequest(PrintHead(m, target, version, fs) + rest).keepAlive
  {
    hide ParseRequest, PrintHead, ValuesOf, PlainFields, PlainWord, Trimmed, HostAndPath, Contains, ToLower;
    PrintParse(m, target, version, fs, rest);
    var vs := ValuesOf(fs, CONNECTION);
    JoinedContains(vs[0], vs[1..], i as int - 1, CLOSE);
  }

  // --------------------------------------------------------------- responses

  function PrintResponseHead(proto: string, code: string, reason: string, fs: seq<Field>): string {
    Block([proto + " " + code + " " + reason] + FieldLines(fs))
  }

  /** `h'` is `h` with the last of the values `vs` put for the name `n`. */
  predicate Replaced(h: Fields, vs: seq<string>, n: string, h': Fields) {
    && (n in h' <==> n in h || vs != [])
    && (n in h' ==> h'[n] == if vs == [] then h[n] else vs[|vs| - 1])
  }

  lemma ReplaceOne(h: Fields, v: string, vs: seq<string>, name: string, n: string, h': Fields)
    requires Replaced(AddField(h, name, v, false), vs, n, h')
    ensures Replaced(h, (if name == n then [v] else []) + vs, n, h')
  {
    var all := (if name == n then [v] else []) + vs;
    if name != n { assert all == vs; }
  }

  /** A response keeps the last value of a repeated field, where a request folds them all. */
  lemma {:induction false} ReadLast(fs: seq<Field>, h: Fields, n: string)
    requires PlainFields(fs)
    ensures Replaced(h, ValuesOf(fs, n), n, ReadFields(WithCr(FieldLines(fs)), h, false))
  {
    if fs != [] {
      hide ReadFields, AddField, Replaced, WithCr, FieldLines;
      var h1 := AddField(h, ToLower(fs[0].name), fs[0].value, false);
      ReadPrintedField(fs, h, false);
      ReadLast(fs[1..], h1, n);
      ReplaceOne(h, fs[0].value, ValuesOf(fs[1..], n), ToLower(fs[0].name), n, ReadFields(WithCr(FieldLines(fs)), h, false));
    } else {
      NoFieldsLeft(h);
    }
  }

  lemma NoFieldsLeft(h: Fields)
    ensures ReadFields(WithCr(FieldLines([])), h, false) == h
  {
  }

  /** Printing a response head and parsing it back: the status, and the last value of every field, whatever follows. */
  lemma ResponsePrintParse(proto: string, status: nat, reason: string, fs: seq<Field>, rest: string)
    requires PlainWord(proto) && 100 <= status <= 599 && NoNewline(reason) && PlainFields(fs)
    ensures var head := PrintResponseHead(proto, Decimal(status), reason, fs);
            Unambiguous(head + rest) && FindHeaderEnd(head + rest) == Some(|head|)
    ensures var r := HttpResponse.ParseResponse(PrintResponseHead(proto, Decimal(status), reason, fs) + rest);
            && r.valid && r.status == status
            && (forall n :: n in r.headers <==> ValuesOf(fs, n) != [])
            && (forall n :: n in r.headers ==> r.headers[n] == ValuesOf(fs, n)[|ValuesOf(fs, n)| - 1])
            && r.chunked == HttpResponse.ChunkedOf(r.headers)
            && r.contentLength == (if r.chunked then -1 else HttpResponse.ContentLengthOf(r.headers))
  {
    hide Decimal, HttpResponse.StatusOf, HttpResponse.ChunkedOf, HttpResponse.ContentLengthOf, ReadFields, FieldLines, ValuesOf,
      FindHeaderEnd, Unambiguous, Block, WithCr, Lines, StripCr, PlainFields, PlainWord;
    var line := proto + " " + Decimal(status) + " " + reason;
    var ls := [line] + FieldLines(fs);
    StatusLinePlain(proto, status, reason, fs);
    var head := Block(ls);
    BlockFound(ls, rest);
    assert (head + rest)[..|head|] == head;
    LinesOfBlock(ls);
    FirstLine(line, FieldLines(fs));
    StripAddedCr(line);
    WordAlone(proto);
    NoSpaceInDigits(Decimal(status));
    HttpResponse.StatusWord(proto, Decimal(status), reason);
    AtoiDecimal(status);
    var h := ReadFields(WithCr(FieldLines(fs)), map[], false);
    forall n: string ensures Replaced(map[], ValuesOf(fs, n), n, h) { ReadLast(fs, map[], n); }
    assert HttpResponse.ParseResponse(head + rest).headers == h;
  }

  lemma WordAlone(w: string)
    requires PlainWord(w)
    ensures forall i :: 0 <= i < |w| ==> w[i] != ' '
    ensures NoNewline(w)
  {
  }

  lemma FirstLine(line: string, ls: seq<string>)
    ensures WithCr([line] + ls) == [line + "\r"] + WithCr(ls)
  {
    assert ([line] + ls)[1..] == ls;
  }

  lemma StatusLinePlain(proto: string, status: nat, reason: string, fs: seq<Field>)
    requires PlainWord(proto) && NoNewline(reason) && PlainFields(fs)
    ensures var ls := [proto + " " + Decimal(status) + " " + reason] + FieldLines(fs);
            PlainLines(ls) && forall i :: 0 <= i < |ls| ==> NoNewline(ls[i])
  {
    hide Decimal;
    NoSpaceInDigits(Decimal(status));
    WordAlone(proto);
    var ls := [proto + " " + Decimal(status) + " " + reason] + FieldLines(fs);
    forall i | 0 <= i < |ls| ensures PlainLine(ls[i]) {
      if i > 0 { FieldLinePlain(fs[i - 1]); }
    }
    HttpResponse.PlainIsNewlineFree(ls);
  }

  const TRANSFER_ENCODING := "transfer-encoding"
  const CONTENT_LENGTH := "content-length"

  /**
   The body-length rules of section 6.3 of RFC 9112, in order of precedence: a final Transfer-Encoding that
   says chunked; else the last Content-Length; else, with neither field, the body runs to end of file.
   */
  lemma FramingRules(proto: string, status: nat, reason: string, fs: seq<Field>, rest: string, n: nat)
    requires PlainWord(proto) && 100 <= status <= 599 && NoNewline(reason) && PlainFields(fs) && n <= LONG_MAX
    ensures var r := HttpResponse.ParseResponse(PrintResponseHead(proto, Decimal(status), reason, fs) + rest);
            var te, cl := ValuesOf(fs, TRANSFER_ENCODING), ValuesOf(fs, CONTENT_LENGTH);
            var coded := te != [] && Contains(ToLower(te[|te| - 1]), "chunked");
            && (coded ==> r.chunked && r.contentLength == -1 && !r.closeDelimited)
            && (!coded && cl != [] && cl[|cl| - 1] == Decimal(n) ==> !r.chunked && r.contentLength == n && !r.closeDelimited)
            && (!coded && cl == [] ==> r.closeDelimited)
  {
    hide Decimal, StrtolOf, HttpResponse.ParseResponse, PrintResponseHead, ValuesOf, PlainFields, PlainWord, Contains, ToLower;
    ResponsePrintParse(proto, status, reason, fs, rest);
    StrtolDecimal(n);
  }

  // ------------------------------------------------------------ cacheability

  const CACHE_CONTROL := "cache-control"
  const SET_COOKIE := "set-cookie"

  /** A Cache-Control value that forbids a shared cache to keep the response. */
  predicate Forbids(v: string) {
    Contains(ToLower(v), "no-store") || Contains(ToLower(v), "no-cache") || Contains(ToLower(v), "private")
  }

  /** What is kept, by the fields as printed: of several Cache-Control fields only the last is looked at. */
  lemma CacheableAsPrinted(req: Request, proto: string, status: nat, reason: string, fs: seq<Field>, rest: string)
    requires PlainWord(proto) && 100 <= status <= 599 && NoNewline(reason) && PlainFields(fs)
    ensures var cc := ValuesOf(fs, CACHE_CONTROL);
            HttpResponse.IsCacheable(req, HttpResponse.ParseResponse(PrintResponseHead(proto, Decimal(status), reason, fs) + rest)) <==>
              && (req.method_ == "GET" || req.method_ == "HEAD") && "authorization" !in req.headers
              && status == 200 && ValuesOf(fs, SET_COOKIE) == []
              && (cc != [] ==> !Forbids(cc[|cc| - 1]))
  {
    hide Decimal, HttpResponse.ParseResponse, PrintResponseHead, ValuesOf, PlainFields, PlainWord, Contains, ToLower;
    ResponsePrintParse(proto, status, reason, fs, rest);
  }

  /**
   Several fields of one name mean one list (section 5.3 of RFC 9110), so a response should be kept only if none of its
   Cache-Control fields forbids it. It is kept against one that does exactly when the last does not.
   */
  lemma ForbiddenYetCacheable(req: Request, proto: string, reason: string, fs: seq<Field>, rest: string, i: nat)
    requires PlainWord(proto) && NoNewline(reason) && PlainFields(fs) && ValuesOf(fs, SET_COOKIE) == []
    requires (req.method_ == "GET" || req.method_ == "HEAD") && "authorization" !in req.headers
    requires i < |ValuesOf(fs, CACHE_CONTROL)| && Forbids(ValuesOf(fs, CACHE_CONTROL)[i])
    ensures var cc := ValuesOf(fs, CACHE_CONTROL);
            HttpResponse.IsCacheable(req, HttpResponse.ParseResponse(PrintResponseHead(proto, Decimal(200), reason, fs) + rest)) <==>
              i < |cc| - 1 && !Forbids(cc[|cc| - 1])
  {
    hide Decimal, HttpResponse.ParseResponse, PrintResponseHead, ValuesOf, PlainFields, PlainWord, Contains, ToLower, Forbids,
      HttpResponse.IsCacheable;
    CacheableAsPrinted(req, proto, 200, reason, fs, rest);
  }

  /** Such a response: kept, though its first Cache-Control says no-store. */
  lemma NoStoreOverruled(req: Request, fs: seq<Field>, rest: string)
    requires (req.method_ == "GET" || req.method_ == "HEAD") && "authorization" !in req.headers
    requires fs == [Field("Cache-Control", "no-store"), Field("Cache-Control", "max-age=60")]
    ensures |ValuesOf(fs, CACHE_CONTROL)| == 2 && Forbids(ValuesOf(fs, CACHE_CONTROL)[0])
    ensures HttpResponse.IsCacheable(req, HttpResponse.ParseResponse(PrintResponseHead("HTTP/1.1", Decimal(200), "OK", fs) + rest))
  {
    hide Decimal, HttpResponse.ParseResponse, PrintResponseHead, ValuesOf, PlainFields, Forbids, HttpResponse.IsCacheable;
    TwoControls(fs);
    ControlsPlain(fs);
    NoStoreForbids();
    MaxAgeAllows();
    ForbiddenYetCacheable(req, "HTTP/1.1", "OK", fs, rest, 0);
  }

  lemma OneControl(v: string, gs: seq<Field>)
    ensures ValuesOf([Field("Cache-Control", v)] + gs, CACHE_CONTROL) == [v] + ValuesOf(gs, CACHE_CONTROL)
    ensures ValuesOf([Field("Cache-Control", v)] + gs, SET_COOKIE) == [] + ValuesOf(gs, SET_COOKIE)
  {
    assert ToLower("Cache-Control") == CACHE_CONTROL && |SET_COOKIE| == 10 && |CACHE_CONTROL| == 13;
    hide ToLower;
    assert ([Field("Cache-Control", v)] + gs)[1..] == gs;
  }

  lemma TwoControls(fs: seq<Field>)
    requires fs == [Field("Cache-Control", "no-store"), Field("Cache-Control", "max-age=60")]
    ensures ValuesOf(fs, CACHE_CONTROL) == ["no-store", "max-age=60"] && ValuesOf(fs, SET_COOKIE) == []
  {
    hide ToLower;
    var g := Field("Cache-Control", "max-age=60");
    OneControl("max-age=60", []);
    OneControl("no-store", [g]);
    assert [g] + [] == [g] && fs == [Field("Cache-Control", "no-store")] + [g];
    assert ValuesOf([], CACHE_CONTROL) == [] && ValuesOf([], SET_COOKIE) == [];
    hide ValuesOf;
    assert ["no-store"] + (["max-age=60"] + []) == ["no-store", "max-age=60"];
  }

  lemma ControlsPlain(fs: seq<Field>)
    requires fs == [Field("Cache-Control", "no-store"), Field("Cache-Control", "max-age=60")]
    ensures PlainFields(fs)
  {
  }

  lemma NoStoreForbids()
    ensures Forbids("no-store")
  {
    assert ToLower("no-store") == "no-store" && "no-store"[0..8] == "no-store";
    assert MatchAt("no-store", "no-store", 0);
  }

  lemma MaxAgeAllows()
    ensures !Forbids("max-age=60")
  {
    hide Contains;
    assert ToLower("max-age=60") == "max-age=60";
    NoFirstByte("max-age=60", "no-store");
    NoFirstByte("max-age=60", "no-cache");
    NoFirstByte("max-age=60", "private");
  }

  lemma NoFirstByte(s: string, pat: string)
    requires pat != "" && pat[0] !in s
    ensures !Contains(s, pat)
  {
    hide Find;
    forall i: nat ensures MatchAt(s, pat, i) ==> i < |s| && s[i] == pat[0] {
      assert i + |pat| <= |s| ==> s[i..i + |pat|][0] == s[i];
    }
  }
}
