/**
 What `handle_ready` decides on the bytes at the front of its buffer, and exactly when that
 decision cannot depend on how much of the stream has arrived.
 */
module Cuts {
  import opened Text
  import opened Head
  import opened HttpRequest

  /**
   What `handle_ready` does with the bytes of one request. Of the parsed request only what the
   handler goes on to use is kept, see `Seen`; `forwarded` is `raw.substr(0, consumed)`.
   */
  datatype Event =
    | Served(request: Request, forwarded: string)
    | BadRequest(request: Request)
    | HeadTooLarge
    | PayloadTooLarge

  /** A request without its raw bytes and the size of its head, which only the framing uses. */
  function Seen(r: Request): Request { r.(raw := "", headerBytes := 0) }

  /** What the head of the buffer calls for: more bytes, a refusal, or serving its first `need` bytes. */
  datatype Next = Wait | Refuse(refusal: Event) | Serve(served: Event, need: nat)

  function NextOf(buf: string, maxHeader: nat): (r: Next)
    ensures r.Serve? ==> 2 <= r.need <= |buf|
  {
    if FindHeaderEnd(buf).None? then
      if |buf| > maxHeader then Refuse(HeadTooLarge) else Wait
    else
      var r := ParseRequest(buf);
      var need := ExpectedBytes(r);
      if !r.valid then Refuse(BadRequest(Seen(r)))
      else if |buf| < need then Wait
      else Serve(Served(Seen(r), buf[..need]), need)
  }

  /** On every prefix of the stream the decision is to wait, or already that of the whole stream. */
  predicate CutAgnostic(s: string, maxHeader: nat) {
    forall k: nat :: k <= |s| ==> NextOf(s[..k], maxHeader) == Wait || NextOf(s[..k], maxHeader) == NextOf(s, maxHeader)
  }

  /**
   The exact condition: no head ends; or the head is within the limit and ends unambiguously; or an LFLF ends a head
   first, within the limit, and that head is refused anyway or declares a body reaching to the end of the CRLFCRLF.
   */
  predicate HeadOk(s: string, maxHeader: nat) {
    match FindHeaderEnd(s)
    case None => true
    case Some(h) =>
      if Unambiguous(s) then h <= maxHeader + 1
      else
        var early := Find(s, LFLF, 0).value + 2;
        early <= maxHeader + 1 && var r := ParseHead(s[..early]); !r.valid || h <= ExpectedBytes(r)
  }

  // --------------------------------------------- two heads, one request

  lemma LineIgnoresSize(line: string, m: nat, n: nat)
    ensures ParseLine(line, BLANK.(headerBytes := n)) == ParseLine(line, BLANK.(headerBytes := m)).(headerBytes := n)
  {
    hide Find, Trim;
  }

  lemma FinishIgnoresSize(r: Request, h: Fields, n: nat)
    ensures Finish(r.(headerBytes := n), h) == Finish(r, h).(headerBytes := n)
  {
    hide HostAndPath, ContentLengthOf, KeepAliveOf;
  }

  /** Bytes after an LFLF are no part of the request: the head is read up to its empty line however far it is taken to reach. */
  lemma SameRequest(a: string, y: string)
    requires |a| >= 2 && a[|a| - 1] == '\n' && a[|a| - 2] == '\n'
    ensures ParseHead(a + y) == ParseHead(a).(headerBytes := |a + y|)
  {
    hide Lines, ParseLine, Finish, ReadFields;
    TwoReadings(a, y, true);
    var line, h := StripCr(Lines(a)[0]), ReadFields(Lines(a)[1..], map[], true);
    LineIgnoresSize(line, |a|, |a + y|);
    FinishIgnoresSize(ParseLine(line, BLANK.(headerBytes := |a|)), h, |a + y|);
  }

  // ------------------------------------------------------- the exact condition

  lemma NextWithoutHead(s: string, maxHeader: nat)
    requires FindHeaderEnd(s).None?
    ensures NextOf(s, maxHeader) == if |s| > maxHeader then Refuse(HeadTooLarge) else Wait
  {
  }

  /** The decision on a buffer whose head ends at `h`, from the head alone. */
  lemma NextWithHead(s: string, h: nat, maxHeader: nat)
    requires FindHeaderEnd(s) == Some(h)
    ensures var r := ParseHead(s[..h]);
            NextOf(s, maxHeader) == if !r.valid then Refuse(BadRequest(Seen(r)))
                                    else if |s| < ExpectedBytes(r) then Wait
                                    else Serve(Served(Seen(r), s[..ExpectedBytes(r)]), ExpectedBytes(r))
  {
    hide ParseHead, FindHeaderEnd;
  }

  /** The same decision at `k` bytes as on the whole stream, or wait, when both see the same head. */
  lemma SameHeadSameNext(s: string, k: nat, h: nat, maxHeader: nat)
    requires h <= k <= |s| && FindHeaderEnd(s) == Some(h) && FindHeaderEnd(s[..k]) == Some(h)
    ensures NextOf(s[..k], maxHeader) == Wait || NextOf(s[..k], maxHeader) == NextOf(s, maxHeader)
  {
    hide ParseHead, FindHeaderEnd, NextOf;
    NextWithHead(s, h, maxHeader);
    NextWithHead(s[..k], h, maxHeader);
    assert s[..k][..h] == s[..h];
    var need := ExpectedBytes(ParseHead(s[..h]));
    assert need <= k ==> s[..k][..need] == s[..need];
  }

  /** Both heads of an ambiguous stream hold the same request. */
  lemma TwoHeads(s: string)
    requires !Unambiguous(s)
    ensures Find(s, CRLFCRLF, 0).Some? && Find(s, LFLF, 0).Some?
    ensures var early, h := Find(s, LFLF, 0).value + 2, Find(s, CRLFCRLF, 0).value + 4;
            && early < h <= |s| && FindHeaderEnd(s) == Some(h)
            && ParseHead(s[..h]) == ParseHead(s[..early]).(headerBytes := h)
  {
    hide ParseHead, Find, FindHeaderEnd, Unambiguous;
    HeadsApart(s);
    var early, h := Find(s, LFLF, 0).value + 2, Find(s, CRLFCRLF, 0).value + 4;
    assert s[..h] == s[..early] + s[early..h];
    SameRequest(s[..early], s[early..h]);
  }

  /** Under the condition every prefix waits or decides as the whole stream. */
  lemma HeadOkPrefix(s: string, k: nat, maxHeader: nat)
    requires HeadOk(s, maxHeader) && k <= |s|
    ensures NextOf(s[..k], maxHeader) == Wait || NextOf(s[..k], maxHeader) == NextOf(s, maxHeader)
  {
    hide NextOf, ParseHead, Find;
    PrefixHead(s, k);
    if FindHeaderEnd(s[..k]).None? {
      NextWithoutHead(s[..k], maxHeader);
      if FindHeaderEnd(s).None? { NextWithoutHead(s, maxHeader); }
    } else if Unambiguous(s) || Find(s, CRLFCRLF, 0).value + 4 <= k {
      SameHeadSameNext(s, k, FindHeaderEnd(s).value, maxHeader);
    } else {
      TwoHeads(s);
      EarlyHeadNext(s, k, maxHeader);
    }
  }

  /** What is decided while only the LFLF of an ambiguous stream has arrived, and on the whole of it. */
  lemma EarlyHeadNext(s: string, k: nat, maxHeader: nat)
    requires !Unambiguous(s) && Find(s, CRLFCRLF, 0).Some? && Find(s, LFLF, 0).Some? && k <= |s|
    requires Find(s, LFLF, 0).value + 2 <= k < Find(s, CRLFCRLF, 0).value + 4 <= |s|
    ensures var early := Find(s, LFLF, 0).value + 2;
            var r := ParseHead(s[..early]);
            && (!r.valid ==> NextOf(s[..k], maxHeader) == NextOf(s, maxHeader))
            && (r.valid && k < ExpectedBytes(r) ==> NextOf(s[..k], maxHeader) == Wait)
            && (r.valid && ExpectedBytes(r) <= k ==>
                  NextOf(s[..k], maxHeader) == Serve(Served(Seen(r), s[..ExpectedBytes(r)]), ExpectedBytes(r))
                  && NextOf(s[..k], maxHeader) != NextOf(s, maxHeader))
  {
    hide NextOf, ParseHead, Find, Unambiguous;
    var early, h := Find(s, LFLF, 0).value + 2, Find(s, CRLFCRLF, 0).value + 4;
    PrefixHead(s, k);
    TwoHeads(s);
    NextWithHead(s[..k], early, maxHeader);
    NextWithHead(s, h, maxHeader);
    assert s[..k][..early] == s[..early];
    var need := ExpectedBytes(ParseHead(s[..early]));
    assert need <= k ==> s[..k][..need] == s[..need];
  }

  /** When the condition fails, a prefix on which something is decided that is not decided on the whole stream. */
  lemma CutWitness(s: string, maxHeader: nat) returns (k: nat)
    requires !HeadOk(s, maxHeader)
    ensures k <= |s| && NextOf(s[..k], maxHeader) != Wait && NextOf(s[..k], maxHeader) != NextOf(s, maxHeader)
  {
    hide NextOf, ParseHead, Find;
    var h := FindHeaderEnd(s).value;
    if Unambiguous(s) {
      k := h - 1;
      PrefixHead(s, k);
      NextWithoutHead(s[..k], maxHeader);
      NextWithHead(s, h, maxHeader);
    } else {
      TwoHeads(s);
      var early := Find(s, LFLF, 0).value + 2;
      if early > maxHeader + 1 {
        k := early - 1;
        PrefixHead(s, k);
        NextWithoutHead(s[..k], maxHeader);
        NextWithHead(s, h, maxHeader);
      } else {
        k := ExpectedBytes(ParseHead(s[..early]));
        EarlyHeadNext(s, k, maxHeader);
      }
    }
  }

  /** Whatever the stream, the decision at its front is independent of the cut if and only if the condition holds. */
  lemma CutAgnosticIff(s: string, maxHeader: nat)
    ensures CutAgnostic(s, maxHeader) <==> HeadOk(s, maxHeader)
  {
    hide HeadOk, NextOf;
    if HeadOk(s, maxHeader) {
      forall k: nat | k <= |s|
        ensures NextOf(s[..k], maxHeader) == Wait || NextOf(s[..k], maxHeader) == NextOf(s, maxHeader)
      {
        HeadOkPrefix(s, k, maxHeader);
      }
    } else {
      var k := CutWitness(s, maxHeader);
    }
  }

  lemma NextOfPrefix(a: string, b: string, maxHeader: nat)
    requires HeadOk(a + b, maxHeader)
    ensures NextOf(a, maxHeader) == Wait || NextOf(a, maxHeader) == NextOf(a + b, maxHeader)
  {
    hide HeadOk, NextOf;
    assert (a + b)[..|a|] == a;
    HeadOkPrefix(a + b, |a|, maxHeader);
  }

  /** Under the condition a request is served as soon as its last byte is there. */
  lemma ServedOnceThere(s: string, k: nat, maxHeader: nat)
    requires HeadOk(s, maxHeader) && NextOf(s, maxHeader).Serve? && NextOf(s, maxHeader).need <= k <= |s|
    ensures NextOf(s[..k], maxHeader) == NextOf(s, maxHeader)
  {
    hide ParseHead, Find, NextOf, HeadOk, Unambiguous;
    ServeNeedsHead(s, maxHeader);
    var h := FindHeaderEnd(s).value;
    PrefixHead(s, k);
    PrefixHead(s, |s|);
    assert s[..|s|] == s;
    NextWithHead(s, h, maxHeader);
    HeadWins(s, k);
    NextWithHead(s[..k], h, maxHeader);
    assert s[..k][..h] == s[..h];
    var need := NextOf(s, maxHeader).need;
    assert s[..k][..need] == s[..need];
  }

  lemma ServeNeedsHead(s: string, maxHeader: nat)
    requires NextOf(s, maxHeader).Serve?
    ensures FindHeaderEnd(s).Some? && FindHeaderEnd(s).value <= NextOf(s, maxHeader).need
  {
    hide FindHeaderEnd, ParseHead;
  }

  /** Two different decisions, neither to wait, show in the events. */
  lemma EventsTellApart(a: string, b: string, maxHeader: nat)
    requires NextOf(a, maxHeader) != NextOf(b, maxHeader) && !NextOf(a, maxHeader).Wait? && !NextOf(b, maxHeader).Wait?
    ensures EventOfNext(NextOf(a, maxHeader)) != EventOfNext(NextOf(b, maxHeader))
  {
    hide FindHeaderEnd, ParseRequest;
  }

  function EventOfNext(n: Next): Event
    requires !n.Wait?
  {
    if n.Refuse? then n.refusal else n.served
  }
}
