/**
 Whole upstream exchanges: a printed response, framed by a length, by chunks or by the end of the
 connection, is read back exactly, however it is cut into pieces.
 */
module Fetching {
  import opened Text
  import opened Head
  import opened Net
  import opened HttpRequest
  import HttpResponse
  import opened Printing
  import opened Upstream
  import Chunked

  /** The parts of a response head that can be printed. */
  datatype Top = Top(proto: string, status: nat, reason: string, fields: seq<Field>)

  predicate Plain(t: Top) {
    PlainWord(t.proto) && 100 <= t.status <= 599 && NoNewline(t.reason) && PlainFields(t.fields)
  }

  function HeadOf(t: Top): string { PrintResponseHead(t.proto, Decimal(t.status), t.reason, t.fields) }

  /** The final Transfer-Encoding says chunked. */
  predicate SaysChunked(t: Top) {
    var te := ValuesOf(t.fields, TRANSFER_ENCODING);
    te != [] && Contains(ToLower(te[|te| - 1]), "chunked")
  }

  /** The final Content-Length is `n`. */
  predicate SaysLength(t: Top, n: nat) {
    var cl := ValuesOf(t.fields, CONTENT_LENGTH);
    n <= LONG_MAX && cl != [] && cl[|cl| - 1] == Decimal(n)
  }

  /** How a printed head frames what follows it. */
  lemma PrintedFraming(t: Top, body: string)
    requires Plain(t)
    ensures Unambiguous(HeadOf(t) + body) && FindHeaderEnd(HeadOf(t) + body) == Some(|HeadOf(t)|)
    ensures var p := HttpResponse.ParseResponse(HeadOf(t) + body);
            && p.valid && p.status == t.status && p.headerBytes == |HeadOf(t)|
            && (SaysChunked(t) ==> p.chunked)
            && (!SaysChunked(t) && SaysLength(t, |body|) ==> !p.chunked && p.contentLength == |body|)
            && (!SaysChunked(t) && ValuesOf(t.fields, CONTENT_LENGTH) == [] ==> p.closeDelimited)
  {
    hide Decimal, HttpResponse.ParseHead, PrintResponseHead, ValuesOf, PlainFields, PlainWord, Contains, ToLower, FindHeaderEnd,
      Unambiguous, HttpResponse.ChunkedOf, HttpResponse.ContentLengthOf;
    ResponsePrintParse(t.proto, t.status, t.reason, t.fields, body);
    if |body| <= LONG_MAX {
      FramingRules(t.proto, t.status, t.reason, t.fields, body, |body|);
    } else {
      FramingRules(t.proto, t.status, t.reason, t.fields, body, 0);
    }
  }

  /** The pieces of one message: bytes or interruptions, the last of them bytes. */
  predicate PiecesOf(pieces: seq<Recv>, m: string) {
    Steady(pieces) && pieces != [] && pieces[|pieces| - 1].Data? && Received(pieces) == m
  }

  lemma WholeRead(m: string, pieces: seq<Recv>, after: seq<Recv>, limits: Limits)
    requires Framed(m) && WithinLimits(m, limits) && PiecesOf(pieces, m)
    ensures ReadFrom(pieces + after, "", None, limits) == (Upstream.Fetched(m, HttpResponse.ParseResponse(m)), after)
  {
    hide Framed, WithinLimits, ReadFrom, Known;
    KnownAtStart(m);
    assert m[..0] == "" && m == m[..0] + Received(pieces);
    FramedRead(m, pieces, after, 0, limits);
  }

  /** A response with a Content-Length, in any pieces: read to its last byte and no further, without end of file. */
  lemma LengthResponseRead(t: Top, body: string, pieces: seq<Recv>, after: seq<Recv>, limits: Limits)
    requires Plain(t) && !SaysChunked(t) && SaysLength(t, |body|)
    requires |HeadOf(t)| <= limits.maxHeader + 1 && |HeadOf(t) + body| <= limits.maxBody
    requires PiecesOf(pieces, HeadOf(t) + body)
    ensures var m := HeadOf(t) + body;
            && ReadFrom(pieces + after, "", None, limits) == (Upstream.Fetched(m, HttpResponse.ParseResponse(m)), after)
            && HttpResponse.ParseResponse(m).status == t.status
            && m[HttpResponse.ParseResponse(m).headerBytes..] == body
  {
    hide Plain, HeadOf, SaysChunked, SaysLength, HttpResponse.ParseResponse, Framed, ReadFrom, PiecesOf, FindHeaderEnd, Unambiguous, ValuesOf;
    PrintedFraming(t, body);
    LengthFramed(HeadOf(t), body);
    WholeRead(HeadOf(t) + body, pieces, after, limits);
  }

  /** A chunked response with any chunk data, in any pieces. */
  lemma ChunkedResponseRead(t: Top, b: Chunked.Body, pieces: seq<Recv>, after: seq<Recv>, limits: Limits)
    requires Plain(t) && SaysChunked(t) && Chunked.ValidBody(b)
    requires |HeadOf(t)| <= limits.maxHeader + 1 && |HeadOf(t) + Chunked.Encode(b)| <= limits.maxBody
    requires PiecesOf(pieces, HeadOf(t) + Chunked.Encode(b))
    ensures var m := HeadOf(t) + Chunked.Encode(b);
            && ReadFrom(pieces + after, "", None, limits) == (Upstream.Fetched(m, HttpResponse.ParseResponse(m)), after)
            && HttpResponse.ParseResponse(m).status == t.status
  {
    hide Plain, HeadOf, SaysChunked, SaysLength, HttpResponse.ParseResponse, Framed, ReadFrom, PiecesOf, FindHeaderEnd, Unambiguous,
      ValuesOf, Chunked.Encode, Chunked.ValidBody;
    PrintedFraming(t, Chunked.Encode(b));
    ChunkedFramed(HeadOf(t), b);
    WholeRead(HeadOf(t) + Chunked.Encode(b), pieces, after, limits);
  }

  /** A response with neither field, in any pieces: returned at end of file, and a timeout without one. */
  lemma CloseDelimitedResponseRead(t: Top, body: string, pieces: seq<Recv>, after: seq<Recv>, limits: Limits)
    requires Plain(t) && !SaysChunked(t) && ValuesOf(t.fields, CONTENT_LENGTH) == []
    requires |HeadOf(t)| <= limits.maxHeader + 1 && |HeadOf(t) + body| <= limits.maxBody
    requires Steady(pieces) && Received(pieces) == HeadOf(t) + body
    ensures var m := HeadOf(t) + body;
            && ReadFrom(pieces + [Eof] + after, "", None, limits) == (Upstream.Fetched(m, HttpResponse.ParseResponse(m)), after)
            && ReadFrom(pieces, "", None, limits) == (Error(Timeout), [])
  {
    hide Plain, HeadOf, SaysChunked, SaysLength, HttpResponse.ParseResponse, ReadFrom, FindHeaderEnd, Unambiguous, ValuesOf, Received;
    PrintedFraming(t, body);
    CloseDelimitedRead(HeadOf(t) + body, pieces, after, limits);
  }
}
