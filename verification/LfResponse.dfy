/**
 Where cuts matter upstream: a response whose head ends in bare LFs and whose body ends in CRLFCRLF.
 Cut after its head it is fetched; received in one piece its head is taken to reach to the end of the
 body, and the loop waits for bytes that never come.
 */
module LfResponse {
  import opened Text
  import opened Head
  import opened Net
  import opened HttpResponse
  import opened Upstream
  import opened Splits
  import opened LfLines

  const CONTENT_LENGTH := "content-length"

  /** The head: a status line and the length of the body, ended by LF. */
  datatype Top = Top(proto: string, status: nat, reason: string, length: nat)

  function StatusLine(t: Top): string { t.proto + " " + Decimal(t.status) + " " + t.reason }

  function LengthLine(t: Top): string { FieldLine(Field("Content-Length", Decimal(t.length))) }

  function HeadOf(t: Top): string { LfHead(StatusLine(t), LengthLine(t)) }

  predicate Plain(t: Top) {
    && t.proto != "" && (forall i :: 0 <= i < |t.proto| ==> t.proto[i] != ' ' && t.proto[i] != '\n' && t.proto[i] != '\r')
    && 100 <= t.status <= 599 && NoNewline(t.reason) && NoCr(t.reason) && t.length <= LONG_MAX
  }

  lemma DigitsPlain(n: nat)
    ensures NoNewline(Decimal(n)) && NoCr(Decimal(n)) && Trimmed(Decimal(n))
    ensures forall i :: 0 <= i < |Decimal(n)| ==> Decimal(n)[i] != ' '
  {
    var d := Decimal(n);
    hide Decimal;
    forall i | 0 <= i < |d| ensures d[i] != '\n' && d[i] != '\r' && d[i] != ' ' && !IsBlank(d[i]) { assert IsDigit(d[i]); }
  }

  lemma LinesPlain(t: Top)
    requires Plain(t)
    ensures PlainPair(StatusLine(t), LengthLine(t))
  {
    hide Decimal;
    DigitsPlain(t.status);
    DigitsPlain(t.length);
  }

  lemma LengthField(t: Top)
    ensures FieldOf(LengthLine(t)) == Some((CONTENT_LENGTH, Decimal(t.length)))
  {
    hide FieldOf, Decimal, FieldLine;
    DigitsPlain(t.length);
    FieldLineParses(Field("Content-Length", Decimal(t.length)));
    assert ToLower("Content-Length") == CONTENT_LENGTH;
  }

  lemma StatusRead(t: Top)
    requires Plain(t)
    ensures StatusOf(StatusLine(t)) == t.status
  {
    hide Decimal, StatusOf;
    DigitsPlain(t.status);
    StatusWord(t.proto, Decimal(t.status), t.reason);
    AtoiDecimal(t.status);
  }

  /** The head declares exactly the length. */
  lemma HeadParses(t: Top)
    requires Plain(t)
    ensures var r := ParseHead(HeadOf(t));
            && r.valid && r.status == t.status && !r.chunked && r.contentLength == t.length
            && r.headerBytes == |HeadOf(t)|
  {
    hide LfHead, StatusLine, LengthLine, Lines, ReadFields, Decimal, FieldOf, StripCr, StatusOf, Frame;
    LinesPlain(t);
    LinesOfLfHead(StatusLine(t), LengthLine(t));
    NoCrNoStrip(StatusLine(t));
    NoCrNoStrip(LengthLine(t));
    StatusRead(t);
    LengthField(t);
    ReadOne(LengthLine(t), CONTENT_LENGTH, Decimal(t.length), false);
    assert [StatusLine(t), LengthLine(t), ""][1..] == [LengthLine(t), ""];
    FrameLength(BLANK.(headerBytes := |HeadOf(t)|, status := t.status), t.length);
  }

  lemma FrameLength(r: Response, n: nat)
    requires n <= LONG_MAX
    ensures var f := Frame(r, map[CONTENT_LENGTH := Decimal(n)]); !f.chunked && f.contentLength == n
  {
    hide Decimal, StrtolOf;
    StrtolDecimal(n);
  }

  /** Message and early head; the late head is the whole message. */
  lemma TwoEnds(t: Top, body: string)
    requires Plain(t) && EndsOnce(body) && |body| == t.length
    ensures var m := HeadOf(t) + body;
            && FindHeaderEnd(m) == Some(|m|) && EarlyEnd(m) == |HeadOf(t)|
            && ParseResponse(m).valid && ParseResponse(m).status == t.status
            && CompleteAt(m, |m|, |HeadOf(t)|) && !CompleteAt(m, |HeadOf(t)|, |HeadOf(t)|) && !CompleteAt(m, |m|, |m|)
  {
    hide HeadOf, ParseHead, Find, Plain, StatusLine, LengthLine, EndsOnce, MatchAt;
    var m, n := HeadOf(t) + body, |HeadOf(t)|;
    LinesPlain(t);
    EndsInFour(body);
    assert HeadOf(t) == LfHead(StatusLine(t), LengthLine(t)) by { SameHead(t); }
    Ambiguous(StatusLine(t), LengthLine(t), body);
    EndsInLfLf(t);
    SameResponse(HeadOf(t), body);
    HeadParses(t);
    assert m[..|m|] == m;
  }

  lemma SameHead(t: Top)
    ensures HeadOf(t) == LfHead(StatusLine(t), LengthLine(t))
  {
  }

  lemma EndsInFour(body: string)
    requires EndsOnce(body)
    ensures |body| >= 4
  {
  }

  lemma EndsInLfLf(t: Top)
    requires Plain(t)
    ensures var h := HeadOf(t); |h| >= 2 && h[|h| - 1] == '\n' && h[|h| - 2] == '\n'
  {
    hide Plain, StatusLine, LengthLine;
    LinesPlain(t);
    LfHeadBytes(StatusLine(t), LengthLine(t), "");
    assert HeadOf(t) + "" == HeadOf(t);
  }

  /** Two splits of one response: fetched whole in two pieces, and a timeout in one. */
  lemma LfResponseDependsOnCut(t: Top, body: string, limits: Limits)
    requires Plain(t) && EndsOnce(body) && |body| == t.length
    requires |HeadOf(t) + body| <= limits.maxBody && |HeadOf(t) + body| <= RECV_MAX
    ensures var m := HeadOf(t) + body;
            && SplitOf([Data(HeadOf(t)), Data(body)], m, RECV_MAX) && SplitOf([Data(m)], m, RECV_MAX)
            && ReadAll([Data(HeadOf(t)), Data(body)], false, limits) == Got(m, t.status)
            && ReadAll([Data(m)], false, limits) == Refused(Timeout)
  {
    hide HeadOf, Plain, EndsOnce, FindHeaderEnd, ParseResponse, CompleteAt, OnData, ReadFrom, EarlyEnd, Bounded, Received;
    var h, m, n := HeadOf(t), HeadOf(t) + body, |HeadOf(t)|;
    TwoEnds(t, body);
    HeadAt(m, n);
    EndsInFour(body);
    assert m[..n] == h && m[..|m|] == m && "" + h == h && "" + m == m;
    OnePiece(h, RECV_MAX);
    OnePiece(body, RECV_MAX);
    OnePiece(m, RECV_MAX);
    BoundedConcat([Data(h)], [Data(body)], RECV_MAX);
    assert [Data(h)] + [Data(body)] == [Data(h), Data(body)];
    assert [Data(h), Data(body)] + Ending(false) == [Data(h)] + ([Data(body)] + []);
    assert [Data(m)] + Ending(false) == [Data(m)] + [];
    PieceWithoutHead(m, n, limits);
    ReadData(h, [Data(body)] + [], "", None, limits);
    PieceAfterHead(m, |m|, n, limits);
    ReadData(body, [], h, Some(Under(m, n)), limits);
    PieceWithoutHead(m, |m|, limits);
    ReadData(m, [], "", None, limits);
    ReadNothing(m, Some(Under(m, |m|)), limits);
  }

  /** The least of them: a body of CRLFCRLF. */
  lemma FourBytes(limits: Limits)
    requires limits.maxBody >= 100
    ensures var h, b := "HTTP/1.1 200 OK\nContent-Length: 4\n\n", "\r\n\r\n";
            && ReadAll([Data(h), Data(b)], false, limits) == Got(h + b, 200)
            && ReadAll([Data(h + b)], false, limits) == Refused(Timeout)
  {
    hide ReadAll, SplitOf;
    var t, b := Top("HTTP/1.1", 200, "OK", 4), "\r\n\r\n";
    FourHead(t);
    FourBody(b);
    LfResponseDependsOnCut(t, b, limits);
  }

  lemma FourHead(t: Top)
    requires t == Top("HTTP/1.1", 200, "OK", 4)
    ensures Plain(t) && HeadOf(t) == "HTTP/1.1 200 OK\nContent-Length: 4\n\n"
  {
    hide Decimal, StatusLine, LengthLine;
    FourLines(t);
  }

  lemma FourLines(t: Top)
    requires t == Top("HTTP/1.1", 200, "OK", 4)
    ensures StatusLine(t) == "HTTP/1.1 200 OK" && LengthLine(t) == "Content-Length: 4"
  {
    assert Decimal(20) == "20";
    assert Decimal(200) == "200" && Decimal(4) == "4";
    hide Decimal;
  }

  lemma FourBody(b: string)
    requires b == "\r\n\r\n"
    ensures EndsOnce(b)
  {
    assert b[0..4] == CRLFCRLF && MatchAt(b, CRLFCRLF, 0);
  }
}
