/**
 `chunked_body_complete`: walking a chunked body (section 7.1 of RFC 9112).
 The walk is specified on the bytes after the head, and characterised by the
 encodings it accepts.
 */
module Chunked {
  import opened Text

  const MAX_CHUNK := 0x100_0000_0000

  function HexDigit(c: char): (r: Option<nat>)
    ensures r.Some? ==> r.value < 16
  {
    if '0' <= c <= '9' then Some(c as int - '0' as int)
    else if 'a' <= c <= 'f' then Some(c as int - 'a' as int + 10)
    else if 'A' <= c <= 'F' then Some(c as int - 'A' as int + 10)
    else None
  }

  predicate IsPadding(c: char) { c == ' ' || c == '\t' }

  /** The value of a size text, read left to right; `None` is malformed, without digits, or above 2^40. */
  function ScanSize(text: string, acc: nat, any: bool): (r: Option<nat>)
    requires acc <= MAX_CHUNK
    ensures r.Some? ==> r.value <= MAX_CHUNK
  {
    if text == "" then (if any then Some(acc) else None)
    else if IsPadding(text[0]) then ScanSize(text[1..], acc, any)
    else
      match HexDigit(text[0])
      case None => None
      case Some(v) => if acc * 16 + v > MAX_CHUNK then None else ScanSize(text[1..], acc * 16 + v, true)
  }

  function SizeOf(text: string): Option<nat> { ScanSize(text, 0, false) }

  /** The part of a chunk line before its extension. */
  function SizeText(line: string): string {
    match Find(line, ";", 0)
    case None => line
    case Some(i) => line[..i]
  }

  /** The trailer lines have ended with an empty one. */
  predicate TrailersDone(b: string)
    decreases |b|
  {
    match Find(b, CRLF, 0)
    case None => false
    case Some(e) => e == 0 || TrailersDone(b[e + 2..])
  }

  /** The body `b` has arrived whole. */
  predicate Complete(b: string)
    decreases |b|
  {
    match Find(b, CRLF, 0)
    case None => false
    case Some(e) => CompleteAfter(b[..e], b[e + 2..])
  }

  /** The same, after the chunk line has been split off. */
  predicate CompleteAfter(line: string, rest: string)
    decreases |rest| + 1
  {
    match SizeOf(SizeText(line))
    case None => false
    case Some(n) => if n == 0 then TrailersDone(rest) else n + 2 <= |rest| && Complete(rest[n + 2..])
  }

  /** The last, and so the largest, value that the accumulator takes while a size text is read. */
  function Peak(text: string, acc: nat): (p: nat)
    ensures p >= acc
  {
    if text == "" then acc
    else if IsPadding(text[0]) then Peak(text[1..], acc)
    else
      match HexDigit(text[0])
      case None => acc
      case Some(v) => if acc * 16 + v > MAX_CHUNK then acc * 16 + v else Peak(text[1..], acc * 16 + v)
  }

  /** On any text at all the accumulator stays below 2^45, far from wrapping. */
  lemma {:induction false} PeakBelow(text: string, acc: nat)
    requires acc <= MAX_CHUNK
    ensures Peak(text, acc) < 0x2000_0000_0000
  {
    if text != "" {
      if IsPadding(text[0]) {
        PeakBelow(text[1..], acc);
      } else {
        match HexDigit(text[0])
        case None =>
        case Some(v) => if acc * 16 + v <= MAX_CHUNK { PeakBelow(text[1..], acc * 16 + v); }
      }
    }
  }

  // -------------------------------------------------------------- the method

  /** The digit loop, in 64-bit arithmetic; `peak` is the last value of its accumulator. */
  method ReadSize(raw: string, from: nat, to: nat) returns (size: Option<nat>, ghost peak: nat)
    requires from <= to <= |raw|
    ensures size == SizeOf(raw[from..to])
    ensures peak == Peak(raw[from..to], 0) < 0x2000_0000_0000
  {
    PeakBelow(raw[from..to], 0);
    var acc: nat, any, i := 0, false, from;
    while i < to
      invariant from <= i <= to && acc <= MAX_CHUNK
      invariant SizeOf(raw[from..to]) == ScanSize(raw[i..to], acc, any)
      invariant Peak(raw[from..to], 0) == Peak(raw[i..to], acc)
    {
      var c := raw[i];
      assert raw[i..to][0] == c && raw[i..to][1..] == raw[i + 1..to];
      i := i + 1;
      var v := HexDigit(c);
      if v.Some? {
        acc, any := (acc * 16 + v.value) % TWO64, true;
        if acc > MAX_CHUNK { return None, acc; }
      } else if !IsPadding(c) {
        return None, acc;
      }
    }
    size, peak := if any then Some(acc) else None, acc;
  }

  /** `chunked_body_complete`. */
  method BodyComplete(raw: string, bodyStart: nat) returns (done: bool)
    requires bodyStart <= |raw|
    ensures done == Complete(raw[bodyStart..])
  {
    hide *;
    var pos := bodyStart;
    while true
      invariant bodyStart <= pos <= |raw|
      invariant Complete(raw[bodyStart..]) == Complete(raw[pos..])
      decreases |raw| - pos
    {
      var lineEnd := Find(raw, CRLF, pos);
      CompleteUnfold(raw, pos);
      if lineEnd.None? { return false; }
      var sizeEnd := Find(raw, ";", pos);
      if sizeEnd.None? || sizeEnd.value > lineEnd.value { sizeEnd := lineEnd; }
      SizeTextAt(raw, pos, lineEnd.value);
      var size;
      ghost var peak;
      size, peak := ReadSize(raw, pos, sizeEnd.value);
      if size.None? { return false; }
      if size.value == 0 {
        done := SkipTrailers(raw, lineEnd.value + 2);
        return;
      }
      var next := lineEnd.value + 2 + size.value + 2;
      if next > |raw| { return false; }
      pos := next;
    }
  }

  lemma CompleteIs(b: string)
    ensures var e := Find(b, CRLF, 0);
            Complete(b) == (e.Some? && e.value + 2 <= |b| && CompleteAfter(b[..e.value], b[e.value + 2..]))
  {
    hide Find, MatchAt, CompleteAfter;
    FindFits(b, CRLF, 0);
  }

  /** One turn of the walk, seen from an offset into the message. */
  lemma CompleteUnfold(raw: string, pos: nat)
    requires pos <= |raw|
    ensures var e := Find(raw, CRLF, pos);
            && (e.Some? ==> pos <= e.value && e.value + 2 <= |raw|)
            && Complete(raw[pos..]) ==
               if e.None? then false
               else
                 var size := SizeOf(SizeText(raw[pos..e.value]));
                 if size.None? then false
                 else if size.value == 0 then TrailersDone(raw[e.value + 2..])
                 else e.value + size.value + 4 <= |raw| && Complete(raw[e.value + size.value + 4..])
  {
    hide Find, MatchAt, SizeOf, SizeText, TrailersDone, Complete;
    CompleteIs(raw[pos..]);
    FindDrop(raw, CRLF, pos, 0);
    FindFits(raw, CRLF, pos);
    var e := Find(raw, CRLF, pos);
    if e.Some? {
      var b, i := raw[pos..], e.value - pos;
      assert b[..i] == raw[pos..e.value] && b[i + 2..] == raw[e.value + 2..];
      var size := SizeOf(SizeText(raw[pos..e.value]));
      if size.Some? && e.value + size.value + 4 <= |raw| {
        assert raw[e.value + 2..][size.value + 2..] == raw[e.value + size.value + 4..];
      }
    }
  }

  lemma FindFits(s: string, pat: string, from: nat)
    ensures var e := Find(s, pat, from);
            e.Some? ==> from <= e.value && e.value + |pat| <= |s| && s[e.value..e.value + |pat|] == pat
  {
  }

  method SkipTrailers(raw: string, from: nat) returns (done: bool)
    requires from <= |raw|
    ensures done == TrailersDone(raw[from..])
  {
    hide *;
    var p := from;
    while true
      invariant from <= p <= |raw| && TrailersDone(raw[from..]) == TrailersDone(raw[p..])
      decreases |raw| - p
    {
      var e := Find(raw, CRLF, p);
      TrailersUnfold(raw, p);
      if e.None? { return false; }
      if e.value == p { return true; }
      p := e.value + 2;
    }
  }

  lemma TrailersUnfold(raw: string, p: nat)
    requires p <= |raw|
    ensures var e := Find(raw, CRLF, p);
            && (e.Some? ==> p <= e.value && e.value + 2 <= |raw|)
            && TrailersDone(raw[p..]) == (e.Some? && (e.value == p || TrailersDone(raw[e.value + 2..])))
  {
    hide Find, MatchAt;
    FindDrop(raw, CRLF, p, 0);
    FindFits(raw, CRLF, p);
    var e := Find(raw, CRLF, p);
    if e.Some? {
      assert raw[p..][e.value - p + 2..] == raw[e.value + 2..];
    }
  }

  lemma SizeTextAt(raw: string, pos: nat, lineEnd: nat)
    requires pos <= lineEnd <= |raw|
    ensures var semi := Find(raw, ";", pos);
            SizeText(raw[pos..lineEnd]) ==
            raw[pos..if semi.None? || semi.value > lineEnd then lineEnd else semi.value]
  {
    var b, e := raw[pos..], lineEnd - pos;
    assert b[..e] == raw[pos..lineEnd];
    FindInSlice(raw, ";", pos, lineEnd);
    hide Find;
    var semi := Find(raw[pos..lineEnd], ";", 0);
    if semi.Some? {
      assert raw[pos..lineEnd][..semi.value] == raw[pos..pos + semi.value];
    }
  }

  lemma FindInSlice(raw: string, pat: string, from: nat, to: nat)
    requires from <= to <= |raw| && |pat| == 1
    ensures var semi := Find(raw, pat, from);
            Find(raw[from..to], pat, 0) ==
            if semi.Some? && semi.value < to then Some(semi.value - from) else None
  {
    var b := raw[from..];
    assert b[..to - from] == raw[from..to];
    hide Find;
    FindDrop(raw, pat, from, 0);
    PrefixFind(b, pat, to - from);
  }

  // ------------------------------------------------------------ the encoding

  /** One chunk: its size line, its data, and the two bytes after the data (which the walk does not look at). */
  datatype Chunk = Chunk(line: string, data: string, end: string)

  datatype Body = Body(chunks: seq<Chunk>, last: string, trailers: seq<string>)

  predicate OneLine(s: string) { Find(s, CRLF, 0).None? }

  predicate ValidChunk(c: Chunk) {
    OneLine(c.line) && SizeOf(SizeText(c.line)) == Some(|c.data|) && |c.data| >= 1 && |c.end| == 2
  }

  predicate ValidBody(b: Body) {
    && (forall i :: 0 <= i < |b.chunks| ==> ValidChunk(b.chunks[i]))
    && OneLine(b.last) && SizeOf(SizeText(b.last)) == Some(0)
    && (forall i :: 0 <= i < |b.trailers| ==> b.trailers[i] != "" && OneLine(b.trailers[i]))
  }

  function EncodeTrailers(ts: seq<string>): string {
    if ts == [] then CRLF else ts[0] + CRLF + EncodeTrailers(ts[1..])
  }

  function EncodeChunk(c: Chunk): string { c.line + CRLF + c.data + c.end }

  function Encode(b: Body): string
    decreases |b.chunks|
  {
    if b.chunks == [] then b.last + CRLF + EncodeTrailers(b.trailers)
    else EncodeChunk(b.chunks[0]) + Encode(b.(chunks := b.chunks[1..]))
  }

  /** The CRLF that ends a line is the first one, whatever follows. */
  lemma LineEnd(line: string, x: string)
    requires OneLine(line)
    ensures Find(line + CRLF + x, CRLF, 0) == Some(|line|)
  {
    var s := line + CRLF + x;
    assert s[|line|..|line| + 2] == CRLF && MatchAt(s, CRLF, |line|);
    forall j: nat | j < |line| ensures !MatchAt(s, CRLF, j) {
      if j + 2 <= |line| {
        assert s == line + (CRLF + x);
        MatchAtExtend(line, CRLF + x, CRLF, j);
      } else {
        assert s[j..j + 2][1] == '\r';
      }
    }
  }

  lemma {:induction false} TrailersWhole(ts: seq<string>, x: string)
    requires forall i :: 0 <= i < |ts| ==> ts[i] != "" && OneLine(ts[i])
    ensures TrailersDone(EncodeTrailers(ts) + x)
  {
    var s := EncodeTrailers(ts) + x;
    if ts == [] {
      assert s == "" + CRLF + x;
      LineEnd("", x);
    } else {
      var rest := EncodeTrailers(ts[1..]) + x;
      assert s == ts[0] + CRLF + rest;
      LineEnd(ts[0], rest);
      assert s[|ts[0]| + 2..] == rest;
      TrailersWhole(ts[1..], x);
    }
  }

  /** The walk over a line, its CRLF and the rest. */
  lemma CompleteLine(line: string, rest: string)
    requires OneLine(line)
    ensures Complete(line + CRLF + rest) == CompleteAfter(line, rest)
  {
    hide CompleteAfter;
    var s := line + CRLF + rest;
    LineEnd(line, rest);
    assert s[..|line|] == line && s[|line| + 2..] == rest;
  }

  lemma CompleteChunk(c: Chunk, rest: string)
    requires ValidChunk(c)
    ensures Complete(EncodeChunk(c) + rest) == Complete(rest)
  {
    var after := c.data + c.end + rest;
    assert EncodeChunk(c) + rest == c.line + CRLF + after;
    CompleteLine(c.line, after);
    assert after[|c.data| + 2..] == rest;
  }

  /** Every encoding is accepted, whatever bytes follow it. */
  lemma {:induction false} EncodingComplete(b: Body, x: string)
    requires ValidBody(b)
    ensures Complete(Encode(b) + x)
    decreases |b.chunks|
  {
    hide Complete, SizeOf, SizeText, OneLine, EncodeChunk;
    if b.chunks == [] {
      var rest := EncodeTrailers(b.trailers) + x;
      assert Encode(b) + x == b.last + CRLF + rest;
      CompleteLine(b.last, rest);
      TrailersWhole(b.trailers, x);
    } else {
      var b' := b.(chunks := b.chunks[1..]);
      assert Encode(b) + x == EncodeChunk(b.chunks[0]) + (Encode(b') + x);
      CompleteChunk(b.chunks[0], Encode(b') + x);
      EncodingComplete(b', x);
    }
  }

  lemma {:induction false} TrailersPrefix(ts: seq<string>, k: nat)
    requires forall i :: 0 <= i < |ts| ==> ts[i] != "" && OneLine(ts[i])
    requires k < |EncodeTrailers(ts)|
    ensures !TrailersDone(EncodeTrailers(ts)[..k])
  {
    var s := EncodeTrailers(ts);
    PrefixFind(s, CRLF, k);
    if ts == [] {
      LineEnd("", "");
      assert s == "" + CRLF + "";
    } else {
      LineEnd(ts[0], EncodeTrailers(ts[1..]));
      var d := |ts[0]| + 2;
      if d <= k {
        TrailersPrefix(ts[1..], k - d);
        assert s[..k][d..] == EncodeTrailers(ts[1..])[..k - d];
      }
    }
  }

  /** Cut inside the chunk line or its CRLF, the walk waits; cut later, it has seen the line. */
  lemma CompleteLinePrefix(line: string, rest: string, k: nat)
    requires OneLine(line) && k <= |line| + 2 + |rest|
    ensures var s := line + CRLF + rest;
            Complete(s[..k]) == (|line| + 2 <= k && CompleteAfter(line, rest[..k - |line| - 2]))
  {
    hide CompleteAfter, Find, MatchAt, OneLine;
    var s, d := line + CRLF + rest, |line| + 2;
    if d <= k {
      assert s[..k] == line + CRLF + rest[..k - d];
      CompleteLine(line, rest[..k - d]);
    } else {
      LineEnd(line, rest);
      PrefixFind(s, CRLF, k);
    }
  }

  lemma CompleteChunkPrefix(c: Chunk, rest: string, k: nat)
    requires ValidChunk(c) && k <= |EncodeChunk(c)| + |rest|
    ensures var d := |EncodeChunk(c)|;
            Complete((EncodeChunk(c) + rest)[..k]) == (d <= k && Complete(rest[..k - d]))
  {
    hide Complete, SizeOf, SizeText, OneLine;
    var after, l := c.data + c.end + rest, |c.line| + 2;
    assert EncodeChunk(c) + rest == c.line + CRLF + after;
    CompleteLinePrefix(c.line, after, k);
    if |EncodeChunk(c)| <= k {
      assert after[..k - l][|c.data| + 2..] == rest[..k - |EncodeChunk(c)|];
    }
  }

  /** No proper prefix of an encoding is accepted, whatever the data bytes are. */
  lemma {:induction false} PrefixIncomplete(b: Body, k: nat)
    requires ValidBody(b) && k < |Encode(b)|
    ensures !Complete(Encode(b)[..k])
    decreases |b.chunks|
  {
    hide Complete, SizeOf, SizeText, OneLine, EncodeChunk;
    if b.chunks == [] {
      CompleteLinePrefix(b.last, EncodeTrailers(b.trailers), k);
      if |b.last| + 2 <= k { TrailersPrefix(b.trailers, k - |b.last| - 2); }
    } else {
      var b' := b.(chunks := b.chunks[1..]);
      CompleteChunkPrefix(b.chunks[0], Encode(b'), k);
      if |EncodeChunk(b.chunks[0])| <= k { PrefixIncomplete(b', k - |EncodeChunk(b.chunks[0])|); }
    }
  }

  // ------------------------------------------------------- characterisation

  /** The trailer lines a finished walk has read. */
  lemma {:induction false} DecodeTrailers(b: string) returns (ts: seq<string>)
    requires TrailersDone(b)
    ensures forall i :: 0 <= i < |ts| ==> ts[i] != "" && OneLine(ts[i])
    ensures EncodeTrailers(ts) <= b
    decreases |b|
  {
    var e := Find(b, CRLF, 0).value;
    SplitLine(b);
    if e == 0 {
      ts := [];
    } else {
      var rest := DecodeTrailers(b[e + 2..]);
      ts := [b[..e]] + rest;
      assert ts[1..] == rest;
      assert b == b[..e] + CRLF + b[e + 2..];
    }
  }

  lemma SplitLine(b: string)
    requires Find(b, CRLF, 0).Some?
    ensures var e := Find(b, CRLF, 0).value;
            e + 2 <= |b| && b == b[..e] + CRLF + b[e + 2..] && OneLine(b[..e])
  {
    hide Find, MatchAt;
    FindFits(b, CRLF, 0);
    PrefixFind(b, CRLF, Find(b, CRLF, 0).value);
  }

  /** The body a finished walk has read. */
  lemma {:induction false} Decode(b: string) returns (body: Body)
    requires Complete(b)
    ensures ValidBody(body) && Encode(body) <= b
    decreases |b|
  {
    hide Find, MatchAt, SizeText, SizeOf, TrailersDone, OneLine, EncodeTrailers, EncodeChunk;
    SplitLine(b);
    var e := Find(b, CRLF, 0).value;
    var line, rest := b[..e], b[e + 2..];
    assert CompleteAfter(line, rest);
    var n := SizeOf(SizeText(line)).value;
    if n == 0 {
      var ts := DecodeTrailers(rest);
      body := Body([], line, ts);
      PrefixAppend(line + CRLF, EncodeTrailers(ts), rest);
    } else {
      var c := Chunk(line, rest[..n], rest[n..n + 2]);
      var more := Decode(rest[n + 2..]);
      body := more.(chunks := [c] + more.chunks);
      assert body.chunks[1..] == more.chunks;
      JoinChunk(c, rest);
      PrefixAppend(EncodeChunk(c), Encode(more), rest[n + 2..]);
    }
  }

  lemma JoinChunk(c: Chunk, rest: string)
    requires |c.data| + 2 <= |rest| && c.data == rest[..|c.data|] && c.end == rest[|c.data|..|c.data| + 2]
    ensures c.line + CRLF + rest == EncodeChunk(c) + rest[|c.data| + 2..]
  {
    assert rest == c.data + c.end + rest[|c.data| + 2..];
  }

  lemma PrefixAppend(a: string, p: string, s: string)
    requires p <= s
    ensures a + p <= a + s
  {
  }

  /**
   The walk accepts exactly the byte strings that begin with an encoding. In particular it is
   not misled by terminator bytes inside chunk data, and it does not check the two bytes after them.
   */
  lemma CompleteIffEncoding(b: string)
    ensures Complete(b) <==> exists body :: ValidBody(body) && Encode(body) <= b
  {
    hide Complete, ValidBody, Encode;
    if Complete(b) {
      var body := Decode(b);
    }
    if body :| ValidBody(body) && Encode(body) <= b {
      EncodingComplete(body, b[|Encode(body)|..]);
      assert b == Encode(body) + b[|Encode(body)|..];
    }
  }

  /** On any input, a finished body stays finished when more bytes arrive. */
  lemma CompleteStays(b: string, x: string)
    requires Complete(b)
    ensures Complete(b + x)
  {
    hide Complete, ValidBody, Encode;
    var body := Decode(b);
    EncodingComplete(body, (b + x)[|Encode(body)|..]);
    assert b + x == Encode(body) + (b + x)[|Encode(body)|..];
  }

  // --------------------------------------------------------- standard chunks

  function HexChar(v: nat): (c: char)
    requires v < 16
    ensures HexDigit(c) == Some(v) && !IsPadding(c) && c != ';' && c != '\r'
  {
    if v < 10 then ('0' as int + v) as char else ('a' as int + v - 10) as char
  }

  function Hex(n: nat): (r: string)
    ensures r != ""
    ensures forall i :: 0 <= i < |r| ==> r[i] != ';' && r[i] != '\r'
  {
    if n < 16 then [HexChar(n)] else Hex(n / 16) + [HexChar(n % 16)]
  }

  lemma {:induction false} ScanHex(n: nat, tail: string)
    requires n <= MAX_CHUNK
    ensures ScanSize(Hex(n) + tail, 0, false) == ScanSize(tail, n, true)
  {
    if n < 16 {
      assert (Hex(n) + tail)[1..] == tail;
    } else {
      var d := [HexChar(n % 16)];
      assert Hex(n) + tail == Hex(n / 16) + (d + tail);
      ScanHex(n / 16, d + tail);
      assert (d + tail)[1..] == tail;
    }
  }

  /** Every size from 1 to 2^40, printed in hexadecimal with any extension, gives a valid chunk. */
  lemma StandardChunk(data: string, ext: string)
    requires 1 <= |data| <= MAX_CHUNK
    requires OneLine(ext) && (ext == "" || ext[0] == ';')
    ensures ValidChunk(Chunk(Hex(|data|) + ext, data, CRLF))
  {
    var h := Hex(|data|);
    HexLine(h, ext);
    ScanHex(|data|, "");
    assert h + "" == h;
    hide Find, Hex, ScanSize;
  }

  lemma HexLine(h: string, ext: string)
    requires forall i :: 0 <= i < |h| ==> h[i] != ';' && h[i] != '\r'
    requires OneLine(ext) && (ext == "" || ext[0] == ';')
    ensures SizeText(h + ext) == h && OneLine(h + ext)
  {
    hide Find;
    var line := h + ext;
    if ext == "" {
      FindNoByte(line, ';', 0);
      assert line == h;
    } else {
      FindByte(line, ';', 0, |h|);
      assert line[..|h|] == h;
    }
    forall j: nat ensures !MatchAt(line, CRLF, j) {
      if j + 2 <= |line| {
        assert line[j..j + 2][0] == line[j];
        if j >= |h| { assert line[j..j + 2] == ext[j - |h|..j - |h| + 2]; assert !MatchAt(ext, CRLF, j - |h|); }
      }
    }
  }

  // ------------------------------------------------------- sizes by position

  const LOWER_HEX := "0123456789abcdef"
  const UPPER_HEX := "0123456789ABCDEF"

  /** The byte is the hexadecimal digit of value `v`, in either letter case. */
  predicate IsHex(c: char, v: nat) { v < 16 && (c == LOWER_HEX[v] || c == UPPER_HEX[v]) }

  /** The text is these digits in order, with blanks and tabs anywhere. */
  predicate Spells(text: string, vs: seq<nat>) {
    if text == "" then vs == []
    else if text[0] == ' ' || text[0] == '\t' then Spells(text[1..], vs)
    else vs != [] && IsHex(text[0], vs[0]) && Spells(text[1..], vs[1..])
  }

  function Pow16(n: nat): (p: nat)
    ensures p >= 1
  {
    if n == 0 then 1 else 16 * Pow16(n - 1)
  }

  /** The value of digits by their positions. */
  function Positional(vs: seq<nat>): nat {
    if vs == [] then 0 else vs[0] * Pow16(|vs| - 1) + Positional(vs[1..])
  }

  lemma HexDigitIff(c: char, v: nat)
    ensures HexDigit(c) == Some(v) <==> IsHex(c, v)
    ensures IsHex(c, v) ==> !IsPadding(c)
  {
  }

  lemma TimesPow(acc: nat, v: nat, n: nat)
    requires n >= 1
    ensures acc * Pow16(n) + v * Pow16(n - 1) == (acc * 16 + v) * Pow16(n - 1)
  {
    var p := Pow16(n - 1);
    assert Pow16(n) == 16 * p;
    assert acc * (16 * p) == (acc * 16) * p;
    assert (acc * 16) * p + v * p == (acc * 16 + v) * p;
  }

  lemma PowAtLeast(a: nat, n: nat)
    ensures a * Pow16(n) >= a
  {
  }

  /** Reading on from an accumulator. */
  lemma {:induction false} ScanSpelled(text: string, vs: seq<nat>, acc: nat, any: bool)
    requires acc <= MAX_CHUNK && Spells(text, vs)
    ensures var n := acc * Pow16(|vs|) + Positional(vs);
            ScanSize(text, acc, any) == if (any || vs != []) && n <= MAX_CHUNK then Some(n) else None
    decreases |text|
  {
    hide Pow16, HexDigit, IsHex;
    if text == "" {
      assert Pow16(0) == 1 by { PowNone(); }
    } else if IsPadding(text[0]) {
      ScanSpelled(text[1..], vs, acc, any);
    } else {
      var v, n := vs[0], |vs|;
      HexDigitIff(text[0], v);
      TimesPow(acc, v, n);
      PowAtLeast(acc * 16 + v, n - 1);
      if acc * 16 + v <= MAX_CHUNK { ScanSpelled(text[1..], vs[1..], acc * 16 + v, true); }
    }
  }

  lemma PowNone()
    ensures Pow16(0) == 1
  {
  }

  /** The digits of a text that has a size. */
  lemma {:induction false} Spelling(text: string, acc: nat, any: bool) returns (vs: seq<nat>)
    requires acc <= MAX_CHUNK && ScanSize(text, acc, any).Some?
    ensures Spells(text, vs)
    decreases |text|
  {
    hide HexDigit, IsHex;
    if text == "" {
      vs := [];
    } else if IsPadding(text[0]) {
      vs := Spelling(text[1..], acc, any);
    } else {
      var v := HexDigit(text[0]).value;
      HexDigitIff(text[0], v);
      var more := Spelling(text[1..], acc * 16 + v, true);
      vs := [v] + more;
      assert vs[1..] == more;
    }
  }

  /**
   The size of a text is the value of its hexadecimal digits by position, in either letter case and with blanks and tabs
   anywhere, and there is one exactly when there are only such bytes, at least one digit, and the value is at most 2^40.
   */
  lemma SizeByPosition(text: string, n: nat)
    ensures SizeOf(text) == Some(n) <==>
            n <= 0x100_0000_0000 && exists vs: seq<nat> :: Spells(text, vs) && vs != [] && Positional(vs) == n
  {
    hide Spells, Positional, ScanSize;
    if SizeOf(text) == Some(n) {
      var vs := Spelling(text, 0, false);
      ScanSpelled(text, vs, 0, false);
    }
    if vs: seq<nat> :| Spells(text, vs) && vs != [] && Positional(vs) == n {
      ScanSpelled(text, vs, 0, false);
    }
  }
}
