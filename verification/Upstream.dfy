/** The read loop of `fetch_upstream`: reading a response until its framing, not the peer, ends it. */
module Upstream {
  import opened Text
  import opened Head
  import opened Net
  import opened HttpResponse
  import Chunked

  datatype Error = Malformed | HeadTooLarge | BodyTooLarge | Timeout | SocketError | Empty

  datatype Result = Fetched(raw: string, parsed: Response) | Error(error: Error)

  /** After one piece has been appended: go on with what is known of the head, or stop. */
  datatype Step = GoOn(known: Option<Response>) | Stop(result: Result)

  function OnData(buf: string, known: Option<Response>, limits: Limits): Step {
    if known.None? && FindHeaderEnd(buf).None? then
      if |buf| > limits.maxHeader then Stop(Error(HeadTooLarge)) else GoOn(None)
    else
      var parsed := if known.Some? then known.value else ParseResponse(buf);
      if known.None? && !parsed.valid then Stop(Error(Malformed))
      else if |buf| > limits.maxBody then Stop(Error(BodyTooLarge))
      else if !parsed.closeDelimited && ResponseComplete(buf, parsed) then Stop(Fetched(buf, parsed))
      else GoOn(Some(parsed))
  }

  function OnEof(buf: string, known: Option<Response>): Result {
    if buf == "" then Error(Empty)
    else
      var parsed := if known.Some? then known.value else ParseResponse(buf);
      if known.None? && !parsed.valid then Error(Malformed) else Fetched(buf, parsed)
  }

  /** The loop as a recursion on the script: the result and the results of `recv` not consumed. */
  function ReadFrom(script: seq<Recv>, buf: string, known: Option<Response>, limits: Limits): (Result, seq<Recv>)
    decreases |script|
  {
    if script == [] then (Error(Timeout), [])
    else
      match script[0]
      case Data(bytes) => (
        match OnData(buf + bytes, known, limits)
        case GoOn(known') => ReadFrom(script[1..], buf + bytes, known', limits)
        case Stop(r) => (r, script[1..]))
      case Eof => (OnEof(buf, known), script[1..])
      case Interrupted => ReadFrom(script[1..], buf, known, limits)
      case WouldBlock => (Error(Timeout), script[1..])
      case Failed => (Error(SocketError), script[1..])
  }

  /** The read loop; a peer that sends nothing more runs into the socket timeout. */
  method ReadResponse(script: seq<Recv>, limits: Limits) returns (res: Result, rest: seq<Recv>)
    ensures (res, rest) == ReadFrom(script, "", None, limits)
  {
    hide OnData, OnEof, ParseResponse, FindHeaderEnd, ResponseComplete;
    var buf: string, parsed, haveHeaders := "", HttpResponse.BLANK, false;
    rest := script;
    while rest != []
      invariant ReadFrom(script, "", None, limits) ==
                ReadFrom(rest, buf, if haveHeaders then Some(parsed) else None, limits)
      decreases |rest|
    {
      var r := rest[0];
      rest := rest[1..];
      match r {
        case Interrupted =>
        case WouldBlock => return Error(Timeout), rest;
        case Failed => return Error(SocketError), rest;
        case Eof =>
          res := AtEof(buf, haveHeaders, parsed);
          return;
        case Data(bytes) =>
          buf := buf + bytes;
          var stop;
          haveHeaders, parsed, stop, res := AtData(buf, haveHeaders, parsed, limits);
          if stop { return; }
      }
    }
    res := Error(Timeout);
  }

  method AtEof(buf: string, haveHeaders: bool, parsed: Response) returns (res: Result)
    ensures res == OnEof(buf, if haveHeaders then Some(parsed) else None)
  {
    if buf == "" { return Error(Empty); }
    var p := parsed;
    if !haveHeaders {
      p := HttpResponse.Parse(buf);
      if !p.valid { return Error(Malformed); }
    }
    res := Fetched(buf, p);
  }

  method AtData(buf: string, haveHeaders: bool, parsed: Response, limits: Limits)
    returns (have: bool, p: Response, stop: bool, res: Result)
    ensures OnData(buf, if haveHeaders then Some(parsed) else None, limits) ==
            if stop then Stop(res) else GoOn(if have then Some(p) else None)
  {
    have, p, stop, res := haveHeaders, parsed, false, Error(Timeout);
    if !have {
      var hend := FindHeaderEnd(buf);
      if hend.Some? {
        p := HttpResponse.Parse(buf);
        if !p.valid { stop, res := true, Error(Malformed); return; }
        have := true;
      } else if |buf| > limits.maxHeader {
        stop, res := true, Error(HeadTooLarge);
        return;
      }
    }
    if have {
      if |buf| > limits.maxBody { stop, res := true, Error(BodyTooLarge); return; }
      if !p.closeDelimited && ResponseComplete(buf, p) { stop, res := true, Fetched(buf, p); }
    }
  }

  // ------------------------------------------------------- framed messages

  /** One whole message with a final head: complete as it stands and at no earlier byte. */
  predicate Framed(m: string) {
    && Unambiguous(m)
    && FindHeaderEnd(m).Some?
    && var p := ParseResponse(m);
       && p.valid && !p.closeDelimited
       && ResponseComplete(m, p)
       && forall k :: FindHeaderEnd(m).value <= k < |m| ==> !ResponseComplete(m[..k], p)
  }

  predicate WithinLimits(m: string, limits: Limits) {
    && |m| <= limits.maxBody
    && match FindHeaderEnd(m) case Some(h) => h <= limits.maxHeader + 1 case None => |m| <= limits.maxHeader
  }

  /** Results of `recv` that bring bytes or nothing. */
  predicate Steady(pieces: seq<Recv>) {
    forall i :: 0 <= i < |pieces| ==> pieces[i].Interrupted? || (pieces[i].Data? && pieces[i].bytes != "")
  }

  /** A head whose length field says how long the body is makes a framed message with that body. */
  lemma LengthFramed(head: string, body: string)
    requires Unambiguous(head + body) && FindHeaderEnd(head + body) == Some(|head|)
    requires var p := ParseResponse(head + body); p.valid && !p.chunked && p.contentLength == |body|
    ensures Framed(head + body)
  {
  }

  /** A chunked head makes a framed message with any encoding as its body, whatever the chunk data is. */
  lemma ChunkedFramed(head: string, b: Chunked.Body)
    requires Chunked.ValidBody(b)
    requires var m := head + Chunked.Encode(b); Unambiguous(m) && FindHeaderEnd(m) == Some(|head|)
    requires var p := ParseResponse(head + Chunked.Encode(b)); p.valid && p.chunked
    ensures Framed(head + Chunked.Encode(b))
  {
    hide ParseResponse, FindHeaderEnd, Unambiguous;
    var e := Chunked.Encode(b);
    var m := head + e;
    Chunked.EncodingComplete(b, "");
    assert e + "" == e && m[|head|..] == e;
    forall k | |head| <= k < |m| ensures !ResponseComplete(m[..k], ParseResponse(m)) {
      Chunked.PrefixIncomplete(b, k - |head|);
      assert m[..k][|head|..] == e[..k - |head|];
    }
  }

  /** What the loop knows after a prefix of a stream with a final head. */
  function Known(m: string, k: nat): Option<Response>
    requires k <= |m|
  {
    if FindHeaderEnd(m[..k]).Some? then Some(ParseResponse(m)) else None
  }

  /** One step inside a message: the loop stops exactly when the last byte has come. */
  lemma DataStep(m: string, k: nat, k': nat, limits: Limits)
    requires Framed(m) && WithinLimits(m, limits) && k <= k' <= |m|
    ensures OnData(m[..k'], Known(m, k), limits) ==
            if k' == |m| then Stop(Fetched(m, ParseResponse(m))) else GoOn(Known(m, k'))
  {
    hide ParseResponse, FindHeaderEnd, Unambiguous, ResponseComplete;
    HeaderEndOfPrefix(m, k);
    HeaderEndOfPrefix(m, k');
    assert m[..|m|] == m;
    if FindHeaderEnd(m).value <= k' { ParseDependsOnHeadOnly(m, k'); }
  }

  /**
   Reading a framed message cut into any pieces: the loop stops on the last piece, needs no end of
   file, leaves what comes after unread, and returns exactly the message with the head it parsed early.
   */
  lemma {:induction false} FramedRead(m: string, pieces: seq<Recv>, after: seq<Recv>, k: nat, limits: Limits)
    requires Framed(m) && WithinLimits(m, limits)
    requires k <= |m| && m == m[..k] + Received(pieces)
    requires Steady(pieces) && pieces != [] && pieces[|pieces| - 1].Data?
    ensures ReadFrom(pieces + after, m[..k], Known(m, k), limits) == (Fetched(m, ParseResponse(m)), after)
    decreases |pieces|
  {
    hide Framed, OnData, Known, WithinLimits, ParseResponse, ReadFrom, Received;
    var r, ps := pieces[0], pieces[1..];
    assert pieces == [r] + ps;
    assert pieces + after == [r] + (ps + after);
    ReceivedCons(r, ps);
    if r.Interrupted? {
      ReadInterrupted(ps + after, m[..k], Known(m, k), limits);
      FramedRead(m, ps, after, k, limits);
    } else {
      var k' := k + |r.bytes|;
      PieceArrives(m, k, r.bytes, Received(ps));
      ReadData(r.bytes, ps + after, m[..k], Known(m, k), limits);
      DataStep(m, k, k', limits);
      if ps == [] {
        ReceivedNone();
        assert ps + after == after;
      } else {
        BytesLeft(ps);
        FramedRead(m, ps, after, k', limits);
      }
    }
  }

  lemma PieceArrives(m: string, k: nat, bytes: string, rest: string)
    requires k <= |m| && m == m[..k] + (bytes + rest)
    ensures k + |bytes| <= |m| && m[..k + |bytes|] == m[..k] + bytes
    ensures m == m[..k + |bytes|] + rest
    ensures k + |bytes| == |m| <==> rest == ""
  {
    var k' := k + |bytes|;
    assert m[..k'] == (m[..k] + (bytes + rest))[..k'];
  }

  lemma ReadInterrupted(script: seq<Recv>, buf: string, known: Option<Response>, limits: Limits)
    ensures ReadFrom([Interrupted] + script, buf, known, limits) == ReadFrom(script, buf, known, limits)
  {
    assert ([Interrupted] + script)[1..] == script;
  }

  lemma ReadData(bytes: string, script: seq<Recv>, buf: string, known: Option<Response>, limits: Limits)
    ensures ReadFrom([Data(bytes)] + script, buf, known, limits) ==
            var step := OnData(buf + bytes, known, limits);
            if step.Stop? then (step.result, script)
            else ReadFrom(script, buf + bytes, step.known, limits)
  {
    hide OnData;
    assert ([Data(bytes)] + script)[1..] == script;
  }

  lemma ReadEof(script: seq<Recv>, buf: string, known: Option<Response>, limits: Limits)
    ensures ReadFrom([Eof] + script, buf, known, limits) == (OnEof(buf, known), script)
  {
    assert ([Eof] + script)[1..] == script;
  }

  lemma ReadNothing(buf: string, known: Option<Response>, limits: Limits)
    ensures ReadFrom([], buf, known, limits) == (Error(Timeout), [])
  {
  }

  lemma KnownAtStart(m: string)
    ensures Known(m, 0) == None
  {
  }

  lemma {:induction false} BytesLeft(pieces: seq<Recv>)
    requires Steady(pieces) && pieces != [] && pieces[|pieces| - 1].Data?
    ensures Received(pieces) != ""
  {
    var r, ps := pieces[0], pieces[1..];
    assert pieces == [r] + ps;
    ReceivedCons(r, ps);
    if |pieces| > 1 { BytesLeft(ps); }
  }

  // ------------------------------------------- close-delimited and truncated

  /** A message whose end only the peer's close can tell. */
  predicate CloseDelimited(m: string) {
    && Unambiguous(m)
    && (FindHeaderEnd(m).Some? ==> ParseResponse(m).valid && ParseResponse(m).closeDelimited)
  }

  /** A message that is not complete at any of its bytes. */
  predicate Unfinished(m: string) {
    && Unambiguous(m)
    && (FindHeaderEnd(m).Some? ==> ParseResponse(m).valid)
    && forall k :: 0 <= k <= |m| ==> !ResponseComplete(m[..k], ParseResponse(m))
  }

  lemma UnfinishedStep(m: string, k: nat, k': nat, limits: Limits)
    requires Unfinished(m) && WithinLimits(m, limits) && k <= k' <= |m|
    ensures OnData(m[..k'], Known(m, k), limits) == GoOn(Known(m, k'))
  {
    hide ParseResponse, FindHeaderEnd, Unambiguous, ResponseComplete;
    HeaderEndOfPrefix(m, k);
    HeaderEndOfPrefix(m, k');
    if FindHeaderEnd(m).Some? && FindHeaderEnd(m).value <= k' { ParseDependsOnHeadOnly(m, k'); }
  }

  /** Bytes that do not complete a message are read to the end, whatever the cuts. */
  lemma {:induction false} UnfinishedRead(m: string, pieces: seq<Recv>, after: seq<Recv>, k: nat, limits: Limits)
    requires Unfinished(m) && WithinLimits(m, limits)
    requires k <= |m| && m == m[..k] + Received(pieces)
    requires Steady(pieces)
    ensures ReadFrom(pieces + after, m[..k], Known(m, k), limits) == ReadFrom(after, m, Known(m, |m|), limits)
    decreases |pieces|
  {
    hide Unfinished, OnData, OnEof, Known, WithinLimits, ParseResponse, ReadFrom;
    if pieces == [] {
      ReceivedNone();
      assert m[..k] == m && pieces + after == after;
    } else {
      var r, ps := pieces[0], pieces[1..];
      assert pieces == [r] + ps;
      assert pieces + after == [r] + (ps + after);
      ReceivedCons(r, ps);
      if r.Interrupted? {
        ReadInterrupted(ps + after, m[..k], Known(m, k), limits);
        UnfinishedRead(m, ps, after, k, limits);
      } else {
        PieceArrives(m, k, r.bytes, Received(ps));
        ReadData(r.bytes, ps + after, m[..k], Known(m, k), limits);
        UnfinishedStep(m, k, k + |r.bytes|, limits);
        UnfinishedRead(m, ps, after, k + |r.bytes|, limits);
      }
    }
  }

  /** A close-delimited message ends at end of file, and only there. */
  lemma CloseDelimitedRead(m: string, pieces: seq<Recv>, after: seq<Recv>, limits: Limits)
    requires CloseDelimited(m) && FindHeaderEnd(m).Some? && WithinLimits(m, limits)
    requires m == Received(pieces) && Steady(pieces)
    ensures ReadFrom(pieces + [Eof] + after, "", None, limits) == (Fetched(m, ParseResponse(m)), after)
    ensures ReadFrom(pieces, "", None, limits) == (Error(Timeout), [])
  {
    hide ParseResponse, Unambiguous, FindHeaderEnd, Chunked.Complete, ReadFrom;
    assert Unfinished(m);
    EofEnds(m, pieces, after, limits);
    ReadNothing(m, Known(m, |m|), limits);
    UnfinishedRead(m, pieces, [], 0, limits);
    KnownAtStart(m);
    assert m[..0] == "" && pieces + [] == pieces && m[..0] + m == m;
  }

  /**
   End of file is always taken for the end of the message: a response cut short after its head is
   returned as fetched, with only the bytes that came.
   */
  lemma EofEnds(m: string, pieces: seq<Recv>, after: seq<Recv>, limits: Limits)
    requires Unfinished(m) && FindHeaderEnd(m).Some? && WithinLimits(m, limits)
    requires m == Received(pieces) && Steady(pieces)
    ensures ReadFrom(pieces + [Eof] + after, "", None, limits) == (Fetched(m, ParseResponse(m)), after)
  {
    hide Unfinished, ParseResponse, OnData, FindHeaderEnd, WithinLimits, ReadFrom;
    assert m[..0] == "" && m[..0] + m == m && m[..|m|] == m;
    assert pieces + [Eof] + after == pieces + ([Eof] + after);
    UnfinishedRead(m, pieces, [Eof] + after, 0, limits);
    KnownAtStart(m);
    ReadEof(after, m, Known(m, |m|), limits);
  }

  /** In particular: every proper prefix of a framed message that contains the head. */
  lemma TruncationAccepted(m: string, k: nat, pieces: seq<Recv>, after: seq<Recv>, limits: Limits)
    requires Framed(m) && WithinLimits(m, limits) && FindHeaderEnd(m).value <= k < |m|
    requires m[..k] == Received(pieces) && Steady(pieces)
    ensures ReadFrom(pieces + [Eof] + after, "", None, limits) == (Fetched(m[..k], ParseResponse(m)), after)
  {
    TruncationUnfinished(m, k);
    hide Framed, ParseResponse, Unfinished, OnData;
    EofEnds(m[..k], pieces, after, limits);
  }

  lemma TruncationUnfinished(m: string, k: nat)
    requires Framed(m) && FindHeaderEnd(m).value <= k < |m|
    ensures Unfinished(m[..k]) && ParseResponse(m[..k]) == ParseResponse(m)
    ensures FindHeaderEnd(m[..k]) == FindHeaderEnd(m)
  {
    hide ParseResponse, FindHeaderEnd, Chunked.Complete, Unambiguous;
    HeaderEndOfPrefix(m, k);
    UnambiguousPrefix(m, k);
    ParseDependsOnHeadOnly(m, k);
    forall j | 0 <= j <= k ensures !ResponseComplete(m[..k][..j], ParseResponse(m)) {
      assert m[..k][..j] == m[..j];
    }
  }

  // ----------------------------------------------- parsed early, parsed late

  /** `known` was parsed from some earlier prefix `buf[..j]`. */
  predicate ParsedAt(known: Option<Response>, buf: string, j: nat) {
    known.Some? ==> j <= |buf| && FindHeaderEnd(buf[..j]).Some? && known.value == ParseResponse(buf[..j])
  }

  /** The head parsed early is the head of the whole buffer: it can differ in size alone, and not even there when unambiguous. */
  predicate Agrees(raw: string, parsed: Response) {
    && parsed == ParseResponse(raw).(headerBytes := parsed.headerBytes)
    && (Unambiguous(raw) ==> parsed == ParseResponse(raw))
  }

  lemma EarlyAgrees(raw: string, j: nat)
    requires j <= |raw| && FindHeaderEnd(raw[..j]).Some?
    ensures Agrees(raw, ParseResponse(raw[..j]))
  {
    hide ParseResponse, FindHeaderEnd, Unambiguous;
    EarlyParse(raw, j);
    if Unambiguous(raw) {
      HeaderEndOfPrefix(raw, j);
      ParseDependsOnHeadOnly(raw, j);
    }
  }

  /** Whatever the script: what the loop returns is everything it read, with a head that agrees with it. */
  lemma {:induction false} FetchedAgrees(script: seq<Recv>, buf: string, known: Option<Response>, j: nat, limits: Limits)
    requires ParsedAt(known, buf, j)
    ensures var r := ReadFrom(script, buf, known, limits).0;
            r.Fetched? ==> buf <= r.raw && Agrees(r.raw, r.parsed)
    decreases |script|
  {
    hide ParseResponse, FindHeaderEnd, Agrees, ResponseComplete;
    if script != [] {
      var r := script[0];
      if r.Data? {
        var buf' := buf + r.bytes;
        var step := OnData(buf', known, limits);
        var j' := if known.Some? then j else |buf'|;
        assert buf'[..|buf'|] == buf';
        assert known.Some? ==> buf'[..j] == buf[..j];
        if known.Some? || FindHeaderEnd(buf').Some? { EarlyAgrees(buf', j'); }
        if step.GoOn? { FetchedAgrees(script[1..], buf', step.known, j', limits); }
      } else if r.Interrupted? {
        FetchedAgrees(script[1..], buf, known, j, limits);
      } else if r.Eof? {
        AgreesItself(buf);
        if known.Some? { EarlyAgrees(buf, j); }
      }
    }
  }

  lemma AgreesItself(raw: string)
    ensures Agrees(raw, ParseResponse(raw))
  {
  }

  /** What holds of the buffer between pieces: within the limits, and a head parsed only once it is there. */
  predicate InBounds(buf: string, known: Option<Response>, limits: Limits) {
    if known.None? then FindHeaderEnd(buf).None? && |buf| <= limits.maxHeader
    else known.value.valid && FindHeaderEnd(buf).Some? && |buf| <= limits.maxBody
  }

  /** Whatever the script: a response is returned only with a valid head, whole in the buffer, and within the limit; and it is all that was read. */
  lemma {:induction false} FetchedInBounds(script: seq<Recv>, buf: string, known: Option<Response>, limits: Limits)
    requires InBounds(buf, known, limits)
    ensures var (r, rest) := ReadFrom(script, buf, known, limits);
            r.Fetched? ==>
              && r.parsed.valid && FindHeaderEnd(r.raw).Some? && |r.raw| <= limits.maxBody
              && r.raw <= buf + Received(script)
    decreases |script|
  {
    hide ParseResponse, FindHeaderEnd, ResponseComplete, Received;
    if script != [] {
      var r := script[0];
      ReceivedCons(r, script[1..]);
      assert script == [r] + script[1..];
      if r.Data? {
        var buf' := buf + r.bytes;
        var step := OnData(buf', known, limits);
        assert buf' + Received(script[1..]) == buf + Received(script);
        if known.Some? { HeadStays(buf, r.bytes); }
        if step.GoOn? { FetchedInBounds(script[1..], buf', step.known, limits); }
      } else if r.Interrupted? {
        FetchedInBounds(script[1..], buf, known, limits);
      } else if r.Eof? {
        NoHeadInvalid(buf);
      }
    }
  }

  lemma HeadStays(buf: string, more: string)
    requires FindHeaderEnd(buf).Some?
    ensures FindHeaderEnd(buf + more).Some?
  {
    hide FindHeaderEnd;
    StatusStable(buf, more);
  }

  lemma NoHeadInvalid(buf: string)
    ensures FindHeaderEnd(buf).None? ==> !ParseResponse(buf).valid
  {
    hide FindHeaderEnd, ParseHead;
  }

  lemma EmptyInBounds(limits: Limits)
    ensures InBounds("", None, limits)
  {
  }

  /** The read loop as it is called: from an empty buffer. */
  lemma ResponseInBounds(script: seq<Recv>, limits: Limits)
    ensures var r := ReadFrom(script, "", None, limits).0;
            r.Fetched? ==>
              r.parsed.valid && FindHeaderEnd(r.raw).Some? && |r.raw| <= limits.maxBody && r.raw <= Received(script)
  {
    hide InBounds, ReadFrom, FindHeaderEnd, Received;
    EmptyInBounds(limits);
    FetchedInBounds(script, "", None, limits);
    assert "" + Received(script) == Received(script);
  }

  // ------------------------------------------------------ when it may return

  /** Results after which the loop reads on. */
  predicate Patient(used: seq<Recv>) { forall i :: 0 <= i < |used| ==> used[i].Data? || used[i].Interrupted? }

  /**
   The answer that the results used up, the last of them in particular, call for. A stall is a timeout and a reset an
   error, whatever has come; only end of file or a message complete under its own head is an answer of the origin.
   */
  predicate EndsRightly(used: seq<Recv>, rest: seq<Recv>, buf: string, r: Result, limits: Limits) {
    var n, t := |used|, buf + Received(used);
    if n == 0 then rest == [] && r == Error(Timeout)
    else
      && Patient(used[..n - 1])
      && match used[n - 1]
         case Failed => r == Error(SocketError)
         case WouldBlock => r == Error(Timeout)
         case Interrupted => rest == [] && r == Error(Timeout)
         case Eof =>
           if t == "" then r == Error(Empty)
           else if ParseResponse(t).valid then r.Fetched? && r.raw == t
           else r == Error(Malformed)
         case Data(_) => AfterPiece(t, rest, r, limits)
  }

  /** The same after a last piece of data, `t` being all that has come. */
  predicate AfterPiece(t: string, rest: seq<Recv>, r: Result, limits: Limits) {
    match r
    case Fetched(raw, parsed) => raw == t && ResponseComplete(t, parsed) && !parsed.closeDelimited && |t| <= limits.maxBody
    case Error(Timeout) => rest == [] && Undecided(t, limits)
    case Error(HeadTooLarge) => FindHeaderEnd(t).None? && |t| > limits.maxHeader
    case Error(BodyTooLarge) => ParseResponse(t).valid && |t| > limits.maxBody
    case Error(Malformed) => FindHeaderEnd(t).Some? && !ParseResponse(t).valid
    case Error(_) => false
  }

  /** No head yet and within the limit, or a good head and within the limit. */
  predicate Undecided(t: string, limits: Limits) {
    if FindHeaderEnd(t).None? then |t| <= limits.maxHeader else ParseResponse(t).valid && |t| <= limits.maxBody
  }

  /** What is known of the head was parsed from the bytes at hand, and is good. */
  predicate Ready(buf: string, known: Option<Response>, j: nat, limits: Limits) {
    InBounds(buf, known, limits) && ParsedAt(known, buf, j)
  }

  lemma ReadyUndecided(buf: string, known: Option<Response>, j: nat, limits: Limits)
    requires Ready(buf, known, j, limits)
    ensures Undecided(buf, limits) && (known.Some? ==> ParseResponse(buf).valid)
  {
    hide ParseResponse, FindHeaderEnd, Unambiguous;
    if known.Some? { EarlyAgrees(buf, j); }
  }

  /** One piece: stopping is called for, or the loop is ready to go on. */
  lemma PieceDecides(buf: string, bytes: string, known: Option<Response>, j: nat, rest: seq<Recv>, limits: Limits) returns (j': nat)
    requires Ready(buf, known, j, limits)
    ensures var step := OnData(buf + bytes, known, limits);
            if step.Stop? then step.result != Error(Timeout) && AfterPiece(buf + bytes, rest, step.result, limits)
            else Ready(buf + bytes, step.known, j', limits)
  {
    hide ParseResponse, FindHeaderEnd, ResponseComplete, Unambiguous;
    var t := buf + bytes;
    j' := if known.Some? then j else |t|;
    assert t[..|t|] == t;
    assert known.Some? ==> t[..j] == buf[..j];
    if known.Some? {
      HeadStays(buf, bytes);
      EarlyAgrees(t, j);
    }
  }

  lemma Longer(r: Recv, used: seq<Recv>, rest: seq<Recv>, buf: string, known: Option<Response>, res: Result, limits: Limits)
    requires r.Data? || r.Interrupted?
    requires EndsRightly(used, rest, buf + (if r.Data? then r.bytes else ""), res, limits)
    requires used == [] && r.Data? ==> Undecided(buf + r.bytes, limits)
    ensures EndsRightly([r] + used, rest, buf, res, limits)
  {
    hide AfterPiece, Undecided, ParseResponse, Received;
    var b := if r.Data? then r.bytes else "";
    ReceivedCons(r, used);
    assert buf + (b + Received(used)) == (buf + b) + Received(used);
    if used == [] {
      ReceivedNone();
      assert [r] + used == [r] && [r][..0] == [] && b + "" == b;
      StalledPiece(buf + b, rest, res, limits);
    } else {
      assert ([r] + used)[..|used|] == [r] + used[..|used| - 1];
      assert ([r] + used)[|used|] == used[|used| - 1];
    }
  }

  lemma StalledPiece(t: string, rest: seq<Recv>, res: Result, limits: Limits)
    requires rest == [] && res == Error(Timeout)
    ensures Undecided(t, limits) ==> AfterPiece(t, rest, res, limits)
  {
    hide Undecided;
  }

  /**
   Whatever the script: the loop uses up results in order, returns what they call for, and leaves the others. So a
   response is returned only after end of file or when it is complete under the head parsed from its own bytes, and a
   stall or a reset met before that is an error.
   */
  lemma {:induction false} ReadEnds(script: seq<Recv>, buf: string, known: Option<Response>, j: nat, limits: Limits)
    returns (used: seq<Recv>)
    requires Ready(buf, known, j, limits)
    ensures var (r, rest) := ReadFrom(script, buf, known, limits);
            script == used + rest && EndsRightly(used, rest, buf, r, limits)
    decreases |script|
  {
    hide OnData, OnEof, AfterPiece, EndsRightly, Ready, Undecided;
    if script == [] {
      used := [];
      NothingUsed(buf, limits);
    } else {
      var r, rest := script[0], script[1..];
      assert script == [r] + rest;
      if r.Data? {
        var j' := PieceDecides(buf, r.bytes, known, j, rest, limits);
        var step := OnData(buf + r.bytes, known, limits);
        if step.Stop? {
          used := [r];
          LastPiece(r, rest, buf, step.result, limits);
        } else {
          ReadyUndecided(buf + r.bytes, step.known, j', limits);
          var used' := ReadEnds(rest, buf + r.bytes, step.known, j', limits);
          used := [r] + used';
          Longer(r, used', ReadFrom(rest, buf + r.bytes, step.known, limits).1, buf, known,
            ReadFrom(rest, buf + r.bytes, step.known, limits).0, limits);
        }
      } else if r.Interrupted? {
        assert buf + "" == buf;
        var used' := ReadEnds(rest, buf, known, j, limits);
        used := [r] + used';
        Longer(r, used', ReadFrom(rest, buf, known, limits).1, buf, known, ReadFrom(rest, buf, known, limits).0, limits);
      } else {
        used := [r];
        LastResult(r, rest, buf, known, j, limits);
      }
    }
  }

  lemma NothingUsed(buf: string, limits: Limits)
    ensures EndsRightly([], [], buf, Error(Timeout), limits)
  {
  }

  lemma LastPiece(r: Recv, rest: seq<Recv>, buf: string, res: Result, limits: Limits)
    requires r.Data? && AfterPiece(buf + r.bytes, rest, res, limits)
    ensures EndsRightly([r], rest, buf, res, limits)
  {
    hide AfterPiece, ParseResponse;
    ReceivedCons(r, []);
    ReceivedNone();
    assert [r] + [] == [r] && r.bytes + "" == r.bytes && [r][..0] == [];
  }

  lemma LastResult(r: Recv, rest: seq<Recv>, buf: string, known: Option<Response>, j: nat, limits: Limits)
    requires Ready(buf, known, j, limits) && (r.Eof? || r.WouldBlock? || r.Failed?)
    ensures EndsRightly([r], rest, buf,
      if r.Eof? then OnEof(buf, known) else if r.WouldBlock? then Error(Timeout) else Error(SocketError), limits)
  {
    hide AfterPiece, ParseResponse, Ready;
    ReadyUndecided(buf, known, j, limits);
    ReceivedCons(r, []);
    ReceivedNone();
    assert [r] + [] == [r] && buf + "" == buf && [r][..0] == [];
  }

  /** The loop as it is called. */
  lemma ResponseEnds(script: seq<Recv>, limits: Limits) returns (used: seq<Recv>)
    ensures var (r, rest) := ReadFrom(script, "", None, limits);
            && script == used + rest && EndsRightly(used, rest, "", r, limits)
            && (r.Fetched? ==> WouldBlock !in used && Failed !in used && Agrees(r.raw, r.parsed))
            && (r.Fetched? && Eof !in used ==> ResponseComplete(r.raw, r.parsed) && r.raw == Received(used))
  {
    hide ReadFrom, EndsRightly, ParseResponse, Agrees, ResponseComplete;
    EmptyInBounds(limits);
    used := ReadEnds(script, "", None, 0, limits);
    FetchedAgrees(script, "", None, 0, limits);
    var (r, rest) := ReadFrom(script, "", None, limits);
    if r.Fetched? { FetchedUses(used, rest, r, limits); }
  }

  lemma FetchedUses(used: seq<Recv>, rest: seq<Recv>, r: Result, limits: Limits)
    requires EndsRightly(used, rest, "", r, limits) && r.Fetched?
    ensures WouldBlock !in used && Failed !in used
    ensures Eof !in used ==> ResponseComplete(r.raw, r.parsed) && r.raw == Received(used)
  {
    hide ParseResponse, Received, ResponseComplete;
    var n := |used|;
    assert "" + Received(used) == Received(used);
    assert used == used[..n - 1] + [used[n - 1]];
  }
}
