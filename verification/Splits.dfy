/**
 When the answer of `fetch_upstream` does not depend on how the response is cut into pieces: exactly
 when, for whatever bytes arrive, every split into `recv` results gives the same outcome.
 */
module Splits {
  import opened Text
  import opened Head
  import opened Net
  import opened HttpResponse
  import opened Upstream
  import Chunked

  /** What `serve_one_request` sees of a fetch: the bytes and the status, or the error. */
  datatype Outcome = Got(raw: string, status: int) | Refused(error: Error)

  function Seen(r: Result): Outcome {
    if r.Fetched? then Got(r.raw, r.parsed.status) else Refused(r.error)
  }

  /** The peer closes after its last byte, or says nothing more until the timeout. */
  function Ending(eof: bool): seq<Recv> { if eof then [Eof] else [] }

  function ReadAll(pieces: seq<Recv>, eof: bool, limits: Limits): Outcome {
    Seen(ReadFrom(pieces + Ending(eof), "", None, limits).0)
  }

  /** The pieces, of at most `most` bytes each, are one way of receiving `m`. */
  predicate SplitOf(pieces: seq<Recv>, m: string, most: nat) { Bounded(pieces, most) && Received(pieces) == m }

  ghost predicate SameAtEverySplit(m: string, eof: bool, limits: Limits, most: nat) {
    forall a, b :: SplitOf(a, m, most) && SplitOf(b, m, most) ==> ReadAll(a, eof, limits) == ReadAll(b, eof, limits)
  }

  // ------------------------------------------------------------- the two heads

  /** The first prefix in which a head is found. */
  function EarlyEnd(m: string): (e: nat)
    requires FindHeaderEnd(m).Some?
    ensures 2 <= e <= |m|
  {
    var p, q := Find(m, CRLFCRLF, 0), Find(m, LFLF, 0);
    if q.Some? && (p.None? || q.value + 2 < p.value + 4) then q.value + 2 else p.value + 4
  }

  /** The response, its head taken to end at `x`. */
  function Under(m: string, x: nat): Response { ParseResponse(m).(headerBytes := x) }

  /** With the head taken to end at `x`, the first `k` bytes are a complete message. */
  predicate CompleteAt(m: string, k: nat, x: nat) { k <= |m| && ResponseComplete(m[..k], Under(m, x)) }

  /** And no fewer are. */
  ghost predicate NoneBefore(m: string, c: nat, x: nat) { forall j: nat :: j < c ==> !CompleteAt(m, j, x) }

  /** The head ends that some split makes the loop parse: the early one, and the late one if one piece can span the gap. */
  predicate Parsable(m: string, x: nat, most: nat)
    requires FindHeaderEnd(m).Some?
  {
    x == EarlyEnd(m) || (x == FindHeaderEnd(m).value && x + 1 <= EarlyEnd(m) + most)
  }

  /** Under no parsable head is the message complete before the end, or before the size limit; and at the end they agree. */
  predicate EndsAlike(m: string, eof: bool, limits: Limits, most: nat)
    requires FindHeaderEnd(m).Some? && m != ""
  {
    var e, f, n := EarlyEnd(m), FindHeaderEnd(m).value, |m|;
    var bound := if n > limits.maxBody then limits.maxBody else n - 1;
    && !CompleteAt(m, bound, e)
    && (Parsable(m, f, most) ==>
          && !CompleteAt(m, bound, f)
          && (n <= limits.maxBody && !eof ==> (CompleteAt(m, n, e) <==> CompleteAt(m, n, f))))
  }

  /**
   The exact condition: no head; or its first end is further beyond the limit than one piece reaches; or it is within
   the limit, and the head is refused or the heads at the LFLF and at the CRLFCRLF end the message alike.
   */
  predicate Settled(m: string, eof: bool, limits: Limits, most: nat) {
    FindHeaderEnd(m).None? ||
    var e := EarlyEnd(m);
    || e > limits.maxHeader + most
    || (e <= limits.maxHeader + 1 && (!ParseResponse(m).valid || EndsAlike(m, eof, limits, most)))
  }

  /** What is found in a prefix: nothing, the early head, or the late one. */
  lemma HeadAt(m: string, k: nat)
    requires FindHeaderEnd(m).Some? && k <= |m|
    ensures var e, f := EarlyEnd(m), FindHeaderEnd(m).value;
            && 2 <= e <= f <= |m|
            && FindHeaderEnd(m[..k]) == if f <= k then Some(f) else if e <= k then Some(e) else None
  {
    hide Find, MatchAt;
    PrefixHead(m, k);
    PrefixHead(m, |m|);
    assert m[..|m|] == m;
  }

  /** And parsed: the response of the whole stream, up to the size of its head. */
  lemma ParsedAt(m: string, k: nat)
    requires k <= |m| && FindHeaderEnd(m[..k]).Some?
    ensures ParseResponse(m[..k]) == Under(m, FindHeaderEnd(m[..k]).value)
  {
    hide ParseResponse, FindHeaderEnd;
    EarlyParse(m, k);
  }

  lemma CompleteGrows(m: string, k: nat, k': nat, x: nat)
    requires CompleteAt(m, k, x) && k <= k' <= |m|
    ensures CompleteAt(m, k', x)
  {
    hide ParseResponse, Chunked.Complete;
    if Under(m, x).chunked {
      assert m[..k'][x..] == m[..k][x..] + m[k..k'];
      Chunked.CompleteStays(m[..k][x..], m[k..k']);
    }
  }

  lemma CompleteBeyondHead(m: string, k: nat, x: nat)
    requires CompleteAt(m, k, x)
    ensures x <= k && ParseResponse(m).valid
  {
    hide ParseResponse, Chunked.Complete;
  }

  // -------------------------------------------------------------- one piece on

  /** A piece arrives while no head has been found: what the loop does. */
  lemma PieceWithoutHead(m: string, k: nat, limits: Limits)
    requires k <= |m|
    ensures var head := FindHeaderEnd(m[..k]);
            OnData(m[..k], None, limits) ==
            if head.None? then if k > limits.maxHeader then Stop(Error(HeadTooLarge)) else GoOn(None)
            else if !ParseResponse(m).valid then Stop(Error(Malformed))
            else PieceWithHead(m, k, head.value, limits)
  {
    hide ParseResponse, FindHeaderEnd, ResponseComplete;
    if FindHeaderEnd(m[..k]).Some? { ParsedAt(m, k); }
    if FindHeaderEnd(m[..k]).Some? { CloseNeverComplete(m, k, FindHeaderEnd(m[..k]).value); }
  }

  /** What the loop does at `k` bytes under a valid head that ends at `x`. */
  function PieceWithHead(m: string, k: nat, x: nat, limits: Limits): Step
    requires k <= |m|
  {
    if k > limits.maxBody then Stop(Error(BodyTooLarge))
    else if CompleteAt(m, k, x) then Stop(Fetched(m[..k], Under(m, x)))
    else GoOn(Some(Under(m, x)))
  }

  lemma PieceAfterHead(m: string, k: nat, x: nat, limits: Limits)
    requires k <= |m|
    ensures OnData(m[..k], Some(Under(m, x)), limits) == PieceWithHead(m, k, x, limits)
  {
    hide ParseResponse, FindHeaderEnd, ResponseComplete;
    CloseNeverComplete(m, k, x);
  }

  /** A message without framing is complete nowhere. */
  lemma CloseNeverComplete(m: string, k: nat, x: nat)
    ensures ParseResponse(m).closeDelimited ==> !CompleteAt(m, k, x)
  {
    hide FindHeaderEnd, ParseHead, Chunked.Complete;
  }

  // ------------------------------------------------------------- sufficiency

  lemma BoundedTail(pieces: seq<Recv>, most: nat)
    requires Bounded(pieces, most) && pieces != []
    ensures Bounded(pieces[1..], most) && (pieces[0].Interrupted? || (pieces[0].Data? && 0 < |pieces[0].bytes| <= most))
    ensures Received(pieces) == (if pieces[0].Data? then pieces[0].bytes else "") + Received(pieces[1..])
    ensures pieces == [pieces[0]] + pieces[1..]
  {
    assert pieces == [pieces[0]] + pieces[1..];
    assert !pieces[0].Eof?;
  }

  /** The rest of a split from `k` on. */
  predicate RestOf(pieces: seq<Recv>, m: string, k: nat, most: nat) {
    k <= |m| && Bounded(pieces, most) && m == m[..k] + Received(pieces)
  }

  /** One result of a split: nothing, or up to `most` bytes more. */
  lemma NextPiece(m: string, k: nat, pieces: seq<Recv>, tail: seq<Recv>, known: Option<Response>, most: nat, limits: Limits)
    returns (k': nat)
    requires RestOf(pieces, m, k, most) && pieces != []
    ensures k <= k' <= |m| && k' <= k + most && RestOf(pieces[1..], m, k', most)
    ensures k' == k ==> ReadFrom(pieces + tail, m[..k], known, limits) == ReadFrom(pieces[1..] + tail, m[..k], known, limits)
    ensures k' > k ==> ReadFrom(pieces + tail, m[..k], known, limits) ==
                       var step := OnData(m[..k'], known, limits);
                       if step.Stop? then (step.result, pieces[1..] + tail)
                       else ReadFrom(pieces[1..] + tail, m[..k'], step.known, limits)
  {
    hide ReadFrom, OnData, Received, Bounded;
    BoundedTail(pieces, most);
    var r, rest := pieces[0], pieces[1..];
    assert pieces + tail == [r] + (rest + tail);
    if r.Interrupted? {
      k' := k;
      assert "" + Received(rest) == Received(rest);
      ReadInterrupted(rest + tail, m[..k], known, limits);
    } else {
      k' := k + |r.bytes|;
      PieceArrives(m, k, r.bytes, Received(rest));
      ReadData(r.bytes, rest + tail, m[..k], known, limits);
    }
  }

  lemma NothingLeft(m: string, k: nat, most: nat)
    requires RestOf([], m, k, most)
    ensures k == |m| && m[..k] == m
  {
    ReceivedNone();
  }

  /** The end of the peer's bytes: the timeout, or end of file. */
  lemma AtEnd(m: string, known: Option<Response>, eof: bool, limits: Limits)
    ensures ReadFrom([] + Ending(eof), m, known, limits).0 == if eof then OnEof(m, known) else Error(Timeout)
  {
    hide OnEof;
    assert [] + Ending(eof) == Ending(eof);
    if eof {
      assert [Eof] == [Eof] + [];
      ReadEof([], m, known, limits);
    } else {
      ReadNothing(m, known, limits);
    }
  }

  /** The one outcome of a stream without a head. */
  function HeadlessOutcome(m: string, eof: bool, limits: Limits): Outcome {
    Refused(if |m| > limits.maxHeader then HeadTooLarge else if !eof then Timeout else if m == "" then Empty else Malformed)
  }

  lemma {:induction false} ReadHeadless(m: string, k: nat, pieces: seq<Recv>, eof: bool, limits: Limits, most: nat)
    requires FindHeaderEnd(m).None? && RestOf(pieces, m, k, most) && k <= limits.maxHeader
    ensures Seen(ReadFrom(pieces + Ending(eof), m[..k], None, limits).0) == HeadlessOutcome(m, eof, limits)
    decreases |pieces|
  {
    hide ReadFrom, OnData, FindHeaderEnd, RestOf, Ending;
    if pieces == [] {
      NothingLeft(m, k, most);
      AtEnd(m, None, eof, limits);
      NoHeadInvalid(m);
    } else {
      var k' := NextPiece(m, k, pieces, Ending(eof), None, most, limits);
      NoHeadInPrefix(m, k');
      PieceWithoutHead(m, k', limits);
      if k' <= limits.maxHeader { ReadHeadless(m, k', pieces[1..], eof, limits, most); }
    }
  }

  lemma NoHeadInPrefix(m: string, k: nat)
    requires FindHeaderEnd(m).None? && k <= |m|
    ensures FindHeaderEnd(m[..k]).None?
  {
    hide Find;
    PrefixHead(m, k);
  }

  /** The first head ends further beyond the limit than one piece reaches: every split runs into the limit. */
  lemma {:induction false} ReadFarHead(m: string, k: nat, pieces: seq<Recv>, eof: bool, limits: Limits, most: nat)
    requires FindHeaderEnd(m).Some? && EarlyEnd(m) > limits.maxHeader + most
    requires RestOf(pieces, m, k, most) && k <= limits.maxHeader && k <= |m|
    ensures Seen(ReadFrom(pieces + Ending(eof), m[..k], None, limits).0) == Refused(HeadTooLarge)
    decreases |pieces|
  {
    hide ReadFrom, OnData, FindHeaderEnd, RestOf, EarlyEnd;
    HeadAt(m, k);
    if pieces == [] {
      NothingLeft(m, k, most);
    } else {
      var k' := NextPiece(m, k, pieces, Ending(eof), None, most, limits);
      HeadAt(m, k');
      PieceWithoutHead(m, k', limits);
      if k' <= limits.maxHeader { ReadFarHead(m, k', pieces[1..], eof, limits, most); }
    }
  }

  /** The one outcome when the heads end the message alike. */
  function FramedOutcome(m: string, eof: bool, limits: Limits): Outcome
    requires FindHeaderEnd(m).Some?
  {
    if |m| > limits.maxBody then Refused(BodyTooLarge)
    else if eof || CompleteAt(m, |m|, EarlyEnd(m)) then Got(m, ParseResponse(m).status)
    else Refused(Timeout)
  }

  /** Reading on under a head that has been parsed. */
  lemma {:induction false} ReadKnown(m: string, k: nat, x: nat, pieces: seq<Recv>, eof: bool, limits: Limits, most: nat)
    requires m != "" && FindHeaderEnd(m).Some? && EndsAlike(m, eof, limits, most) && Parsable(m, x, most)
    requires RestOf(pieces, m, k, most) && k <= limits.maxBody && !CompleteAt(m, k, x)
    ensures Seen(ReadFrom(pieces + Ending(eof), m[..k], Some(Under(m, x)), limits).0) == FramedOutcome(m, eof, limits)
    decreases |pieces|
  {
    hide ReadFrom, OnData, FindHeaderEnd, RestOf, EarlyEnd, CompleteAt, ParseResponse, Ending;
    if pieces == [] {
      NothingLeft(m, k, most);
      AtEnd(m, Some(Under(m, x)), eof, limits);
    } else {
      var k' := NextPiece(m, k, pieces, Ending(eof), Some(Under(m, x)), most, limits);
      if k' == k {
        ReadKnown(m, k, x, pieces[1..], eof, limits, most);
      } else {
        PieceAfterHead(m, k', x, limits);
        StopsAtEnd(m, k', x, eof, limits, most);
        if PieceWithHead(m, k', x, limits).GoOn? { ReadKnown(m, k', x, pieces[1..], eof, limits, most); }
      }
    }
  }

  /** When the heads end the message alike, a step under one of them stops with the one outcome or goes on. */
  lemma StopsAtEnd(m: string, k: nat, x: nat, eof: bool, limits: Limits, most: nat)
    requires m != "" && FindHeaderEnd(m).Some? && EndsAlike(m, eof, limits, most) && Parsable(m, x, most) && k <= |m|
    ensures var step := PieceWithHead(m, k, x, limits);
            if step.Stop? then Seen(step.result) == FramedOutcome(m, eof, limits)
            else k <= limits.maxBody && !CompleteAt(m, k, x)
  {
    hide FindHeaderEnd, EarlyEnd, CompleteAt, ParseResponse;
    if k <= limits.maxBody && CompleteAt(m, k, x) {
      var bound := if |m| > limits.maxBody then limits.maxBody else |m| - 1;
      if k <= bound { CompleteGrows(m, k, bound, x); }
      assert k == |m| && m[..k] == m;
    }
  }

  /** Reading on before any head has been found, the first head being within the limit. */
  lemma {:induction false} ReadUnknown(m: string, k: nat, pieces: seq<Recv>, eof: bool, limits: Limits, most: nat)
    requires m != "" && FindHeaderEnd(m).Some? && EarlyEnd(m) <= limits.maxHeader + 1 && k < EarlyEnd(m) && k <= |m|
    requires ParseResponse(m).valid && EndsAlike(m, eof, limits, most) && RestOf(pieces, m, k, most)
    ensures Seen(ReadFrom(pieces + Ending(eof), m[..k], None, limits).0) == FramedOutcome(m, eof, limits)
    decreases |pieces|
  {
    hide ReadFrom, OnData, FindHeaderEnd, RestOf, EarlyEnd, CompleteAt, ParseResponse, Ending, EndsAlike;
    HeadAt(m, k);
    if pieces == [] {
      NothingLeft(m, k, most);
    } else {
      var k' := NextPiece(m, k, pieces, Ending(eof), None, most, limits);
      HeadAt(m, k');
      if k' == k {
        ReadUnknown(m, k, pieces[1..], eof, limits, most);
      } else {
        PieceWithoutHead(m, k', limits);
        if FindHeaderEnd(m[..k']).None? {
          ReadUnknown(m, k', pieces[1..], eof, limits, most);
        } else {
          var x := FindHeaderEnd(m[..k']).value;
          assert Parsable(m, x, most);
          StopsAtEnd(m, k', x, eof, limits, most);
          if PieceWithHead(m, k', x, limits).GoOn? { ReadKnown(m, k', x, pieces[1..], eof, limits, most); }
        }
      }
    }
  }

  /** A head within the limit that is refused: every split is refused with it. */
  lemma {:induction false} ReadInvalid(m: string, k: nat, pieces: seq<Recv>, eof: bool, limits: Limits, most: nat)
    requires FindHeaderEnd(m).Some? && EarlyEnd(m) <= limits.maxHeader + 1 && k < EarlyEnd(m) && k <= |m|
    requires !ParseResponse(m).valid && RestOf(pieces, m, k, most)
    ensures Seen(ReadFrom(pieces + Ending(eof), m[..k], None, limits).0) == Refused(Malformed)
    decreases |pieces|
  {
    hide ReadFrom, OnData, FindHeaderEnd, RestOf, EarlyEnd, ParseResponse, Ending;
    HeadAt(m, k);
    if pieces == [] {
      NothingLeft(m, k, most);
    } else {
      var k' := NextPiece(m, k, pieces, Ending(eof), None, most, limits);
      HeadAt(m, k');
      if k' == k {
        ReadInvalid(m, k, pieces[1..], eof, limits, most);
      } else {
        PieceWithoutHead(m, k', limits);
        if FindHeaderEnd(m[..k']).None? { ReadInvalid(m, k', pieces[1..], eof, limits, most); }
      }
    }
  }

  /** The one outcome under the condition. */
  function SettledOutcome(m: string, eof: bool, limits: Limits): Outcome {
    if FindHeaderEnd(m).None? then HeadlessOutcome(m, eof, limits)
    else if EarlyEnd(m) > limits.maxHeader + 1 then Refused(HeadTooLarge)
    else if !ParseResponse(m).valid then Refused(Malformed)
    else FramedOutcome(m, eof, limits)
  }

  /** Under the condition every split gives that outcome. */
  lemma SettledRead(m: string, pieces: seq<Recv>, eof: bool, limits: Limits, most: nat)
    requires Settled(m, eof, limits, most) && SplitOf(pieces, m, most) && most >= 1
    ensures ReadAll(pieces, eof, limits) == SettledOutcome(m, eof, limits)
  {
    hide ReadFrom, FindHeaderEnd, EarlyEnd, ParseResponse, Ending, EndsAlike, Received, Bounded;
    assert m[..0] == "" && m == m[..0] + Received(pieces);
    if FindHeaderEnd(m).None? {
      ReadHeadless(m, 0, pieces, eof, limits, most);
    } else {
      HeadAt(m, 0);
      if EarlyEnd(m) > limits.maxHeader + most {
        ReadFarHead(m, 0, pieces, eof, limits, most);
      } else if !ParseResponse(m).valid {
        ReadInvalid(m, 0, pieces, eof, limits, most);
      } else {
        ReadUnknown(m, 0, pieces, eof, limits, most);
      }
    }
  }

  // --------------------------------------------------------------- necessity

  /** Pieces that lead from `k` to `k'`. */
  predicate Leads(a: seq<Recv>, m: string, k: nat, k': nat, most: nat) { k <= k' <= |m| && RestOf(a, m[..k'], k, most) }

  lemma LeadsByPieces(m: string, k: nat, k': nat, most: nat)
    requires k <= k' <= |m| && most >= 1
    ensures Leads(Pieces(m[k..k'], most), m, k, k', most)
  {
    hide Pieces, Received, Bounded;
    assert m[..k'] == m[..k'][..k] + m[k..k'];
  }

  /** One result on the way from `k` to `k'`. */
  lemma NextOnTheWay(m: string, k: nat, k': nat, a: seq<Recv>, tail: seq<Recv>, known: Option<Response>, most: nat, limits: Limits)
    returns (j: nat)
    requires Leads(a, m, k, k', most) && a != []
    ensures k <= j <= k' <= |m| && j <= k + most && Leads(a[1..], m, j, k', most)
    ensures j == k ==> ReadFrom(a + tail, m[..k], known, limits) == ReadFrom(a[1..] + tail, m[..k], known, limits)
    ensures j > k ==> ReadFrom(a + tail, m[..k], known, limits) ==
                      var step := OnData(m[..j], known, limits);
                      if step.Stop? then (step.result, a[1..] + tail)
                      else ReadFrom(a[1..] + tail, m[..j], step.known, limits)
  {
    hide ReadFrom, OnData, RestOf;
    j := NextPiece(m[..k'], k, a, tail, known, most, limits);
    assert m[..k'][..k] == m[..k] && m[..k'][..j] == m[..j];
  }

  lemma LedThere(m: string, k: nat, k': nat, most: nat)
    requires Leads([], m, k, k', most)
    ensures k == k'
  {
    NothingLeft(m[..k'], k, most);
  }

  /** Short of the first head and within the limit nothing is decided. */
  lemma {:induction false} RunsOn(m: string, k: nat, k': nat, a: seq<Recv>, tail: seq<Recv>, most: nat, limits: Limits)
    requires FindHeaderEnd(m).Some? && k <= |m| && Leads(a, m, k, k', most) && k' < EarlyEnd(m) && k' <= limits.maxHeader
    ensures ReadFrom(a + tail, m[..k], None, limits) == ReadFrom(tail, m[..k'], None, limits)
    decreases |a|
  {
    hide ReadFrom, OnData, FindHeaderEnd, EarlyEnd, Leads;
    if a == [] {
      LedThere(m, k, k', most);
      assert a + tail == tail;
    } else {
      var j := NextOnTheWay(m, k, k', a, tail, None, most, limits);
      HeadAt(m, j);
      PieceWithoutHead(m, j, limits);
      RunsOn(m, j, k', a[1..], tail, most, limits);
    }
  }

  /** Short of the first head and beyond the limit the head is too large. */
  lemma {:induction false} RunsIntoLimit(m: string, k: nat, k': nat, a: seq<Recv>, tail: seq<Recv>, most: nat, limits: Limits)
    requires FindHeaderEnd(m).Some? && k <= |m| && Leads(a, m, k, k', most) && k <= limits.maxHeader < k' < EarlyEnd(m)
    ensures ReadFrom(a + tail, m[..k], None, limits).0 == Error(HeadTooLarge)
    decreases |a|
  {
    hide ReadFrom, OnData, FindHeaderEnd, EarlyEnd, Leads;
    if a == [] {
      LedThere(m, k, k', most);
    } else {
      var j := NextOnTheWay(m, k, k', a, tail, None, most, limits);
      HeadAt(m, j);
      PieceWithoutHead(m, j, limits);
      if j <= limits.maxHeader { RunsIntoLimit(m, j, k', a[1..], tail, most, limits); }
    }
  }

  /** Under a parsed head, up to a place before which the message is not complete. */
  lemma {:induction false} RunsKnown(m: string, k: nat, c: nat, x: nat, a: seq<Recv>, tail: seq<Recv>, most: nat, limits: Limits)
    requires k <= |m| && Leads(a, m, k, c, most) && c <= limits.maxBody && NoneBefore(m, c, x)
    ensures k < c && CompleteAt(m, c, x) ==>
              ReadFrom(a + tail, m[..k], Some(Under(m, x)), limits).0 == Fetched(m[..c], Under(m, x))
    ensures !(k < c && CompleteAt(m, c, x)) ==>
              ReadFrom(a + tail, m[..k], Some(Under(m, x)), limits) == ReadFrom(tail, m[..c], Some(Under(m, x)), limits)
    decreases |a|
  {
    hide ReadFrom, OnData, Leads, CompleteAt, ParseResponse;
    if a == [] {
      LedThere(m, k, c, most);
      assert a + tail == tail;
    } else {
      var j := NextOnTheWay(m, k, c, a, tail, Some(Under(m, x)), most, limits);
      PieceAfterHead(m, j, x, limits);
      if j == k || !CompleteAt(m, j, x) { RunsKnown(m, j, c, x, a[1..], tail, most, limits); }
    }
  }

  // ----------------------------------------------------------- two splits

  /** A split that makes the loop parse the head at `x`, and cuts at `c`. */
  function Via(m: string, x: nat, c: nat, most: nat): seq<Recv>
    requires FindHeaderEnd(m).Some? && 1 <= EarlyEnd(m) <= x <= c <= |m| && most >= 1
  {
    Pieces(m[..EarlyEnd(m) - 1], most) + ([Data(m[EarlyEnd(m) - 1..x])] + (Pieces(m[x..c], most) + Pieces(m[c..], most)))
  }

  lemma BoundedConcat(a: seq<Recv>, b: seq<Recv>, most: nat)
    requires Bounded(a, most) && Bounded(b, most)
    ensures Bounded(a + b, most) && Received(a + b) == Received(a) + Received(b)
  {
    assert Eof !in a;
    ReceivedConcat(a, b);
  }

  lemma OnePiece(bytes: string, most: nat)
    requires 0 < |bytes| <= most
    ensures Bounded([Data(bytes)], most) && Received([Data(bytes)]) == bytes
  {
    assert [Data(bytes)] == [Data(bytes)] + [];
    ReceivedCons(Data(bytes), []);
    ReceivedNone();
  }

  lemma ViaSplits(m: string, x: nat, c: nat, most: nat)
    requires FindHeaderEnd(m).Some? && 1 <= EarlyEnd(m) <= x <= c <= |m| && x + 1 <= EarlyEnd(m) + most && most >= 1
    ensures SplitOf(Via(m, x, c, most), m, most)
  {
    hide Pieces, Received, Bounded, EarlyEnd, FindHeaderEnd;
    var e := EarlyEnd(m);
    OnePiece(m[e - 1..x], most);
    BoundedConcat(Pieces(m[x..c], most), Pieces(m[c..], most), most);
    BoundedConcat([Data(m[e - 1..x])], Pieces(m[x..c], most) + Pieces(m[c..], most), most);
    BoundedConcat(Pieces(m[..e - 1], most), [Data(m[e - 1..x])] + (Pieces(m[x..c], most) + Pieces(m[c..], most)), most);
    assert m[..e - 1] + (m[e - 1..x] + (m[x..c] + m[c..])) == m;
  }

  lemma ViaThen(m: string, x: nat, c: nat, most: nat, tail: seq<Recv>)
    requires FindHeaderEnd(m).Some? && 1 <= EarlyEnd(m) <= x <= c <= |m| && most >= 1
    ensures Via(m, x, c, most) + tail ==
            Pieces(m[..EarlyEnd(m) - 1], most) + ([Data(m[EarlyEnd(m) - 1..x])] + (Pieces(m[x..c], most) + (Pieces(m[c..], most) + tail)))
  {
    hide Pieces, EarlyEnd, FindHeaderEnd;
  }

  /** It comes to the piece that ends at `x` with no head known. */
  lemma ViaHead(m: string, x: nat, more: seq<Recv>, limits: Limits, most: nat)
    requires FindHeaderEnd(m).Some? && 2 <= EarlyEnd(m) <= limits.maxHeader + 1 && EarlyEnd(m) <= x <= |m| && most >= 1
    ensures var script := Pieces(m[..EarlyEnd(m) - 1], most) + ([Data(m[EarlyEnd(m) - 1..x])] + more);
            var step := OnData(m[..x], None, limits);
            ReadFrom(script, "", None, limits) == if step.Stop? then (step.result, more) else ReadFrom(more, m[..x], step.known, limits)
  {
    hide ReadFrom, OnData, FindHeaderEnd, EarlyEnd, Pieces, Leads;
    var e := EarlyEnd(m);
    assert m[0..e - 1] == m[..e - 1] && m[..0] == "";
    LeadsByPieces(m, 0, e - 1, most);
    RunsOn(m, 0, e - 1, Pieces(m[..e - 1], most), [Data(m[e - 1..x])] + more, most, limits);
    assert m[..e - 1] + m[e - 1..x] == m[..x];
    ReadData(m[e - 1..x], more, m[..e - 1], None, limits);
  }

  /** What that split gives: the message up to `c` if it is first complete there, else what follows from there. */
  lemma ViaRead(m: string, x: nat, c: nat, eof: bool, limits: Limits, most: nat)
    requires FindHeaderEnd(m).Some? && 2 <= EarlyEnd(m) <= limits.maxHeader + 1 && most >= 1
    requires EarlyEnd(m) <= x <= c <= |m| && c <= limits.maxBody && ParseResponse(m).valid
    requires FindHeaderEnd(m[..x]) == Some(x) && NoneBefore(m, c, x)
    ensures ReadAll(Via(m, x, c, most), eof, limits) ==
            if CompleteAt(m, c, x) then Got(m[..c], ParseResponse(m).status)
            else Seen(ReadFrom(Pieces(m[c..], most) + Ending(eof), m[..c], Some(Under(m, x)), limits).0)
  {
    hide ReadFrom, OnData, FindHeaderEnd, EarlyEnd, CompleteAt, ParseResponse, Ending, Pieces, Leads, Via;
    var last := Pieces(m[c..], most) + Ending(eof);
    var more := Pieces(m[x..c], most) + last;
    ViaThen(m, x, c, most, Ending(eof));
    ViaHead(m, x, more, limits, most);
    PieceWithoutHead(m, x, limits);
    LeadsByPieces(m, x, c, most);
    RunsKnown(m, x, c, x, Pieces(m[x..c], most), last, most, limits);
  }

  // ------------------------------------------------- a split without a cut at `c`

  /** Reading some results first: it stops within them, with no more than they brought, or goes on after them. */
  lemma {:induction false} ReadFirst(a: seq<Recv>, b: seq<Recv>, buf: string, known: Option<Response>, limits: Limits, most: nat)
    returns (stopped: bool, known': Option<Response>)
    requires Bounded(a, most)
    ensures var r := ReadFrom(a + b, buf, known, limits);
            if stopped then r.0.Fetched? ==> |r.0.raw| <= |buf + Received(a)|
            else r == ReadFrom(b, buf + Received(a), known', limits)
    decreases |a|
  {
    hide ReadFrom, OnData, Received, Bounded;
    if a == [] {
      ReceivedNone();
      assert a + b == b && buf + "" == buf;
      stopped, known' := false, known;
    } else {
      BoundedTail(a, most);
      var rest := a[1..];
      assert a + b == [a[0]] + (rest + b);
      if a[0].Interrupted? {
        ReadInterrupted(rest + b, buf, known, limits);
        assert "" + Received(rest) == Received(rest);
        stopped, known' := ReadFirst(rest, b, buf, known, limits, most);
      } else {
        var buf' := buf + a[0].bytes;
        ReadData(a[0].bytes, rest + b, buf, known, limits);
        assert buf' + Received(rest) == buf + Received(a);
        var step := OnData(buf', known, limits);
        if step.Stop? {
          StopsWithBuffer(buf', known, limits);
          stopped, known' := true, known;
        } else {
          stopped, known' := ReadFirst(rest, b, buf', step.known, limits, most);
        }
      }
    }
  }

  lemma StopsWithBuffer(buf: string, known: Option<Response>, limits: Limits)
    ensures var step := OnData(buf, known, limits); step.Stop? && step.result.Fetched? ==> step.result.raw == buf
  {
    hide ParseResponse, FindHeaderEnd, ResponseComplete;
  }

  lemma {:induction false} RawGrows(script: seq<Recv>, buf: string, known: Option<Response>, limits: Limits)
    ensures var r := ReadFrom(script, buf, known, limits).0; r.Fetched? ==> |r.raw| >= |buf|
    decreases |script|
  {
    hide ParseResponse, FindHeaderEnd, ResponseComplete, OnData;
    if script != [] {
      if script[0].Data? {
        var buf' := buf + script[0].bytes;
        StopsWithBuffer(buf', known, limits);
        var step := OnData(buf', known, limits);
        if step.GoOn? { RawGrows(script[1..], buf', step.known, limits); }
      } else if script[0].Interrupted? {
        RawGrows(script[1..], buf, known, limits);
      }
    }
  }

  function Skipping(m: string, c: nat, most: nat): seq<Recv>
    requires 1 <= c < |m| && most >= 2
  {
    Pieces(m[..c - 1], most) + ([Data(m[c - 1..c + 1])] + Pieces(m[c + 1..], most))
  }

  lemma SkippingSplits(m: string, c: nat, most: nat)
    requires 1 <= c < |m| && most >= 2
    ensures SplitOf(Skipping(m, c, most), m, most)
  {
    hide Pieces, Received, Bounded;
    OnePiece(m[c - 1..c + 1], most);
    BoundedConcat([Data(m[c - 1..c + 1])], Pieces(m[c + 1..], most), most);
    BoundedConcat(Pieces(m[..c - 1], most), [Data(m[c - 1..c + 1])] + Pieces(m[c + 1..], most), most);
    assert m[..c - 1] + (m[c - 1..c + 1] + m[c + 1..]) == m;
  }

  /** A split with no cut at `c` never gives just the first `c` bytes. */
  lemma SkippingRead(m: string, c: nat, eof: bool, limits: Limits, most: nat)
    requires 1 <= c < |m| && most >= 2
    ensures var o := ReadAll(Skipping(m, c, most), eof, limits); o.Got? ==> |o.raw| != c
  {
    hide ReadFrom, OnData, Pieces, Received, Bounded, Ending;
    var a, d, rest := Pieces(m[..c - 1], most), m[c - 1..c + 1], Pieces(m[c + 1..], most) + Ending(eof);
    assert Skipping(m, c, most) + Ending(eof) == a + ([Data(d)] + rest);
    var stopped, known := ReadFirst(a, [Data(d)] + rest, "", None, limits, most);
    assert "" + m[..c - 1] == m[..c - 1];
    if !stopped {
      ReadData(d, rest, m[..c - 1], known, limits);
      var buf := m[..c - 1] + d;
      assert |buf| == c + 1;
      StopsWithBuffer(buf, known, limits);
      var step := OnData(buf, known, limits);
      if step.GoOn? { RawGrows(rest, buf, step.known, limits); }
    }
  }

  // ------------------------------------------------------- a head near the limit

  function Jumping(m: string, k: nat, x: nat, most: nat): seq<Recv>
    requires k < x <= |m| && most >= 1
  {
    Pieces(m[..k], most) + ([Data(m[k..x])] + Pieces(m[x..], most))
  }

  lemma JumpingSplits(m: string, k: nat, x: nat, most: nat)
    requires k < x <= |m| && x - k <= most && most >= 1
    ensures SplitOf(Jumping(m, k, x, most), m, most)
  {
    hide Pieces, Received, Bounded;
    OnePiece(m[k..x], most);
    BoundedConcat([Data(m[k..x])], Pieces(m[x..], most), most);
    BoundedConcat(Pieces(m[..k], most), [Data(m[k..x])] + Pieces(m[x..], most), most);
    assert m[..k] + (m[k..x] + m[x..]) == m;
  }

  lemma {:induction false} KnownHeadFits(script: seq<Recv>, buf: string, r: Response, limits: Limits)
    ensures ReadFrom(script, buf, Some(r), limits).0 != Error(HeadTooLarge)
    decreases |script|
  {
    hide ParseResponse, FindHeaderEnd, ResponseComplete;
    if script != [] {
      if script[0].Data? {
        var step := OnData(buf + script[0].bytes, Some(r), limits);
        if step.GoOn? { KnownHeadFits(script[1..], buf + script[0].bytes, r, limits); }
      } else if script[0].Interrupted? {
        KnownHeadFits(script[1..], buf, r, limits);
      }
    }
  }

  /** A head beyond the limit, but within a piece of it: one split jumps to it, another is refused on the way. */
  lemma NearLimit(m: string, eof: bool, limits: Limits, most: nat) returns (a: seq<Recv>, b: seq<Recv>)
    requires FindHeaderEnd(m).Some? && limits.maxHeader + 1 < EarlyEnd(m) <= limits.maxHeader + most && most >= 2
    ensures SplitOf(a, m, most) && SplitOf(b, m, most) && ReadAll(a, eof, limits) != ReadAll(b, eof, limits)
  {
    hide ReadFrom, OnData, FindHeaderEnd, EarlyEnd, ParseResponse, Ending, Pieces, Leads, Bounded, Received, CompleteAt;
    var e, k := EarlyEnd(m), limits.maxHeader;
    HeadAt(m, e);
    a, b := Jumping(m, e - 1, e, most), Jumping(m, k, e, most);
    JumpingSplits(m, e - 1, e, most);
    JumpingSplits(m, k, e, most);
    assert m[..0] == "" && m[0..e - 1] == m[..e - 1] && m[0..k] == m[..k];
    LeadsByPieces(m, 0, e - 1, most);
    var restA := [Data(m[e - 1..e])] + (Pieces(m[e..], most) + Ending(eof));
    assert a + Ending(eof) == Pieces(m[..e - 1], most) + restA;
    RunsIntoLimit(m, 0, e - 1, Pieces(m[..e - 1], most), restA, most, limits);
    LeadsByPieces(m, 0, k, most);
    var more := Pieces(m[e..], most) + Ending(eof);
    assert b + Ending(eof) == Pieces(m[..k], most) + ([Data(m[k..e])] + more);
    RunsOn(m, 0, k, Pieces(m[..k], most), [Data(m[k..e])] + more, most, limits);
    assert m[..k] + m[k..e] == m[..e];
    ReadData(m[k..e], more, m[..k], None, limits);
    PieceWithoutHead(m, e, limits);
    KnownHeadFits(more, m[..e], Under(m, FindHeaderEnd(m[..e]).value), limits);
  }

  // ----------------------------------------------------------------- the result

  lemma {:induction false} LeastComplete(m: string, k: nat, x: nat) returns (c: nat)
    requires CompleteAt(m, k, x)
    ensures c <= k && CompleteAt(m, c, x) && NoneBefore(m, c, x)
  {
    hide CompleteAt;
    c := k;
    while c > 0 && CompleteAt(m, c - 1, x)
      invariant c <= k && CompleteAt(m, c, x)
    {
      c := c - 1;
    }
    forall j: nat | j < c ensures !CompleteAt(m, j, x) {
      WithinStream(m, c, x);
      if CompleteAt(m, j, x) { CompleteGrows(m, j, c - 1, x); }
    }
  }

  lemma WithinStream(m: string, c: nat, x: nat)
    requires CompleteAt(m, c, x)
    ensures c <= |m|
  {
  }

  /** A parsable head is the one found at its end. */
  lemma ParsableFound(m: string, x: nat, most: nat)
    requires FindHeaderEnd(m).Some? && Parsable(m, x, most) && most >= 1
    ensures 2 <= EarlyEnd(m) <= x <= |m| && x + 1 <= EarlyEnd(m) + most && FindHeaderEnd(m[..x]) == Some(x)
  {
    hide FindHeaderEnd, EarlyEnd;
    HeadAt(m, x);
    HeadAt(m, EarlyEnd(m));
  }

  /** Complete too early under some parsable head: a split stops there, another does not. */
  lemma TooEarly(m: string, x: nat, k: nat, eof: bool, limits: Limits, most: nat) returns (a: seq<Recv>, b: seq<Recv>)
    requires FindHeaderEnd(m).Some? && EarlyEnd(m) <= limits.maxHeader + 1 && Parsable(m, x, most) && most >= 2
    requires CompleteAt(m, k, x) && k < |m| && k <= limits.maxBody
    ensures SplitOf(a, m, most) && SplitOf(b, m, most) && ReadAll(a, eof, limits) != ReadAll(b, eof, limits)
  {
    hide FindHeaderEnd, EarlyEnd, CompleteAt, ParseResponse, ReadAll, Parsable, SplitOf;
    ParsableFound(m, x, most);
    var c := LeastComplete(m, k, x);
    CompleteBeyondHead(m, c, x);
    a, b := Via(m, x, c, most), Skipping(m, c, most);
    ViaSplits(m, x, c, most);
    ViaRead(m, x, c, eof, limits, most);
    SkippingSplits(m, c, most);
    SkippingRead(m, c, eof, limits, most);
  }

  /** Complete at the end under one head and not under the other. */
  lemma EndsDiffer(m: string, limits: Limits, most: nat) returns (a: seq<Recv>, b: seq<Recv>)
    requires FindHeaderEnd(m).Some? && EarlyEnd(m) <= limits.maxHeader + 1 && |m| <= limits.maxBody && ParseResponse(m).valid
    requires var e, f, n := EarlyEnd(m), FindHeaderEnd(m).value, |m|;
             && Parsable(m, f, most) && most >= 1 && n > 0 && !CompleteAt(m, n - 1, e) && !CompleteAt(m, n - 1, f)
             && (CompleteAt(m, n, e) <==> !CompleteAt(m, n, f))
    ensures SplitOf(a, m, most) && SplitOf(b, m, most) && ReadAll(a, false, limits) != ReadAll(b, false, limits)
  {
    hide FindHeaderEnd, EarlyEnd, CompleteAt, ParseResponse, ReadAll, SplitOf, ReadFrom, Ending, Under;
    var e, f, n := EarlyEnd(m), FindHeaderEnd(m).value, |m|;
    ParsableFound(m, e, most);
    ParsableFound(m, f, most);
    a, b := Via(m, e, n, most), Via(m, f, n, most);
    ViaSplits(m, e, n, most);
    ViaSplits(m, f, n, most);
    NotBefore(m, e);
    NotBefore(m, f);
    ViaRead(m, e, n, false, limits, most);
    ViaRead(m, f, n, false, limits, most);
    assert m[n..] == "" && m[..n] == m;
    AtEnd(m, Some(Under(m, e)), false, limits);
    AtEnd(m, Some(Under(m, f)), false, limits);
  }

  lemma NotBefore(m: string, x: nat)
    requires m != "" && !CompleteAt(m, |m| - 1, x)
    ensures NoneBefore(m, |m|, x)
  {
    hide CompleteAt;
    forall j: nat | j < |m| ensures !CompleteAt(m, j, x) {
      if CompleteAt(m, j, x) { CompleteGrows(m, j, |m| - 1, x); }
    }
  }

  /** When the condition fails, two splits with different outcomes. */
  lemma Unsettled(m: string, eof: bool, limits: Limits, most: nat) returns (a: seq<Recv>, b: seq<Recv>)
    requires !Settled(m, eof, limits, most) && most >= 2
    ensures SplitOf(a, m, most) && SplitOf(b, m, most) && ReadAll(a, eof, limits) != ReadAll(b, eof, limits)
  {
    hide FindHeaderEnd, EarlyEnd, CompleteAt, ParseResponse, ReadAll, SplitOf, Parsable;
    HeadAt(m, 0);
    var e, f, n := EarlyEnd(m), FindHeaderEnd(m).value, |m|;
    if e > limits.maxHeader + 1 {
      a, b := NearLimit(m, eof, limits, most);
    } else {
      var bound := if n > limits.maxBody then limits.maxBody else n - 1;
      ParsableEarly(m, most);
      if CompleteAt(m, bound, e) {
        a, b := TooEarly(m, e, bound, eof, limits, most);
      } else if CompleteAt(m, bound, f) {
        a, b := TooEarly(m, f, bound, eof, limits, most);
      } else {
        a, b := EndsDiffer(m, limits, most);
      }
    }
  }

  lemma ParsableEarly(m: string, most: nat)
    requires FindHeaderEnd(m).Some?
    ensures Parsable(m, EarlyEnd(m), most)
  {
  }

  /**
   For every stream of bytes, every end, all limits and every size of the receive buffer from two bytes up: all splits
   give one outcome if and only if the condition holds.
   */
  lemma SameAtEverySplitIff(m: string, eof: bool, limits: Limits, most: nat)
    requires most >= 2
    ensures SameAtEverySplit(m, eof, limits, most) <==> Settled(m, eof, limits, most)
  {
    hide Settled, ReadAll, SplitOf;
    if Settled(m, eof, limits, most) {
      forall a | SplitOf(a, m, most) ensures ReadAll(a, eof, limits) == SettledOutcome(m, eof, limits) {
        SettledRead(m, a, eof, limits, most);
      }
    } else {
      var a, b := Unsettled(m, eof, limits, most);
    }
  }
}
