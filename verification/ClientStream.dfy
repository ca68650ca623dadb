/**
 `handle_ready`: draining a client socket, serving every complete request in the
 buffer, and re-arming. The kernel is a script of `recv` results; what
 `serve_one_request` answers (keep the connection or close it) is an oracle indexed
 by the ordinal of the request.
 */
module ClientStream {
  import opened Text
  import opened Head
  import opened Net
  import opened HttpRequest
  import opened Cuts

  /** Serving a buffer: the events, the bytes left over, and whether the connection is still open. */
  datatype Walk = Walk(events: seq<Event>, rest: string, open: bool)

  /** Serving every complete request of a buffer that is all there at once. */
  function ServeAll(buf: string, n: nat, keep: nat -> bool, maxHeader: nat): Walk
    decreases |buf|
  {
    match NextOf(buf, maxHeader)
    case Wait => Walk([], buf, true)
    case Refuse(e) => Walk([e], buf, false)
    case Serve(e, need) =>
      if !keep(n) then Walk([e], buf[need..], false)
      else After([e], ServeAll(buf[need..], n + 1, keep, maxHeader))
  }

  function After(es: seq<Event>, w: Walk): Walk { w.(events := es + w.events) }

  /** At each request of the stream, up to where the connection is closed, the decision is independent of the cut. */
  predicate WellFramed(s: string, n: nat, keep: nat -> bool, maxHeader: nat)
    decreases |s|
  {
    && HeadOk(s, maxHeader)
    && match NextOf(s, maxHeader)
       case Serve(_, need) => keep(n) ==> WellFramed(s[need..], n + 1, keep, maxHeader)
       case _ => true
  }

  /** Every prefix of a well-framed stream walks to a point from which the rest continues the full walk. */
  lemma {:induction false} ServePrefix(a: string, b: string, n: nat, keep: nat -> bool, maxHeader: nat)
    requires WellFramed(a + b, n, keep, maxHeader)
    ensures var w, full := ServeAll(a, n, keep, maxHeader), ServeAll(a + b, n, keep, maxHeader);
            if w.open then
              && WellFramed(w.rest + b, n + |w.events|, keep, maxHeader)
              && full == After(w.events, ServeAll(w.rest + b, n + |w.events|, keep, maxHeader))
            else
              full.events == w.events && !full.open
    decreases |a|
  {
    hide NextOf, HeadOk;
    NextOfPrefix(a, b, maxHeader);
    var w, next := ServeAll(a, n, keep, maxHeader), NextOf(a, maxHeader);
    if next.Wait? {
      AfterNone(ServeAll(a + b, n, keep, maxHeader));
    } else if next.Serve? && keep(n) {
      var a' := a[next.need..];
      assert (a + b)[next.need..] == a' + b;
      ServePrefix(a', b, n + 1, keep, maxHeader);
      var w1 := ServeAll(a', n + 1, keep, maxHeader);
      AfterAfter([next.served], w1.events, ServeAll(w1.rest + b, n + 1 + |w1.events|, keep, maxHeader));
    }
  }

  lemma AfterNone(w: Walk)
    ensures After([], w) == w
  {
  }

  lemma AfterAfter(es: seq<Event>, fs: seq<Event>, w: Walk)
    ensures After(es, After(fs, w)) == After(es + fs, w)
  {
    assert es + (fs + w.events) == (es + fs) + w.events;
  }

  /** The walk so far, one request further. */
  lemma ServeStep(es: seq<Event>, buf: string, n: nat, keep: nat -> bool, maxHeader: nat)
    ensures var next, w := NextOf(buf, maxHeader), After(es, ServeAll(buf, n, keep, maxHeader));
            && (next.Wait? ==> w == Walk(es, buf, true))
            && (next.Refuse? ==> w == Walk(es + [next.refusal], buf, false))
            && (next.Serve? && !keep(n) ==> w == Walk(es + [next.served], buf[next.need..], false))
            && (next.Serve? && keep(n) ==>
                  w == After(es + [next.served], ServeAll(buf[next.need..], n + 1, keep, maxHeader)))
  {
    hide NextOf;
    var next := NextOf(buf, maxHeader);
    if next.Serve? && keep(n) {
      AfterAfter(es, [next.served], ServeAll(buf[next.need..], n + 1, keep, maxHeader));
    }
  }

  // ------------------------------------------------------------ conservation

  /** The bytes handed to `serve_one_request`, in order. */
  function Forwarded(es: seq<Event>): string {
    if es == [] then ""
    else (if es[0].Served? then es[0].forwarded else "") + Forwarded(es[1..])
  }

  lemma ForwardedNone()
    ensures Forwarded([]) == "" && Forwarded([PayloadTooLarge]) == ""
  {
  }

  lemma {:induction false} ForwardedConcat(es: seq<Event>, fs: seq<Event>)
    ensures Forwarded(es + fs) == Forwarded(es) + Forwarded(fs)
  {
    if es == [] {
      assert es + fs == fs;
    } else {
      assert (es + fs)[1..] == es[1..] + fs;
      ForwardedConcat(es[1..], fs);
    }
  }

  /** No byte is lost, duplicated or reordered by serving. */
  lemma {:induction false} ServeConserves(buf: string, n: nat, keep: nat -> bool, maxHeader: nat)
    ensures var w := ServeAll(buf, n, keep, maxHeader);
            && Forwarded(w.events) + w.rest == buf
            && (w.open ==> Quiet(w.rest, n + |w.events|, keep, maxHeader))
            && (w.open && w.events != [] ==> |w.rest| < |buf|)
    decreases |buf|
  {
    hide NextOf, ParseRequest, FindHeaderEnd;
    var w, next := ServeAll(buf, n, keep, maxHeader), NextOf(buf, maxHeader);
    if next.Serve? {
      ServedIsPrefix(buf, maxHeader);
      assert Forwarded([next.served]) == buf[..next.need];
      if keep(n) {
        ServeConserves(buf[next.need..], n + 1, keep, maxHeader);
        ForwardedConcat([next.served], ServeAll(buf[next.need..], n + 1, keep, maxHeader).events);
      }
    } else if next.Refuse? {
      RefusalForwardsNothing(buf, maxHeader);
    }
  }

  lemma ServedIsPrefix(buf: string, maxHeader: nat)
    requires NextOf(buf, maxHeader).Serve?
    ensures var next := NextOf(buf, maxHeader);
            next.served.Served? && next.served.forwarded == buf[..next.need]
  {
  }

  lemma RefusalForwardsNothing(buf: string, maxHeader: nat)
    requires NextOf(buf, maxHeader).Refuse?
    ensures !NextOf(buf, maxHeader).refusal.Served?
  {
  }

  /** No request is complete in the buffer and no limit is exceeded: nothing to do but wait. */
  predicate Quiet(buf: string, n: nat, keep: nat -> bool, maxHeader: nat) {
    ServeAll(buf, n, keep, maxHeader) == Walk([], buf, true)
  }

  // ---------------------------------------------------------- the connection

  /** The hypotheses under which the answer does not depend on the cuts. */
  predicate Tame(buf: string, script: seq<Recv>, n: nat, keep: nat -> bool, limits: Limits) {
    && Failed !in script
    && WellFramed(buf + Received(script), n, keep, limits.maxHeader)
    && |buf + Received(script)| <= limits.maxHeader + limits.maxBody
  }

  lemma RawKept(buf: string)
    ensures ParseRequest(buf).raw == buf
  {
  }

  lemma ReceivedHead(script: seq<Recv>)
    requires script != []
    ensures Received(script) == if script[0].Eof? then "" else (if script[0].Data? then script[0].bytes else "") + Received(script[1..])
    ensures Failed in script[1..] ==> Failed in script
  {
  }

  datatype Drained = Blocked | PeerClosed | TooLarge | Broken

  /** Step 1 on values: how reading ended, the results of `recv` left over, and the buffer. */
  function DrainFrom(script: seq<Recv>, buf: string, cap: nat): (Drained, seq<Recv>, string)
    decreases |script|
  {
    if script == [] then (Blocked, [], buf)
    else
      match script[0]
      case Data(bytes) =>
        if |buf + bytes| > cap then (TooLarge, script[1..], buf + bytes) else DrainFrom(script[1..], buf + bytes, cap)
      case Interrupted => DrainFrom(script[1..], buf, cap)
      case Eof => (PeerClosed, script[1..], buf)
      case WouldBlock => (Blocked, script[1..], buf)
      case Failed => (Broken, script[1..], buf)
  }

  /** Everything received is in the buffer or still to be read, except what the peer can no longer send. */
  lemma {:induction false} DrainKeeps(script: seq<Recv>, buf: string, cap: nat)
    ensures var (d, rest, buf') := DrainFrom(script, buf, cap);
            && buf <= buf'
            && buf' + (if d.PeerClosed? then "" else Received(rest)) == buf + Received(script)
            && (d.TooLarge? ==> |buf'| > cap)
            && (|buf| <= cap && !d.TooLarge? ==> |buf'| <= cap)
            && (d.Broken? ==> Failed in script)
            && |rest| <= |script| && (script != [] ==> |rest| < |script|) && (Failed in rest ==> Failed in script)
    decreases |script|
  {
    hide Received;
    if script == [] {
      ReceivedNone();
    } else {
      ReceivedHead(script);
      match script[0]
      case Data(bytes) =>
        assert buf + (bytes + Received(script[1..])) == (buf + bytes) + Received(script[1..]);
        if |buf + bytes| <= cap { DrainKeeps(script[1..], buf + bytes, cap); }
      case Interrupted =>
        assert "" + Received(script[1..]) == Received(script[1..]);
        DrainKeeps(script[1..], buf, cap);
      case Eof =>
      case _ => assert "" + Received(script[1..]) == Received(script[1..]);
    }
  }

  /** What a round or a wake-up leaves behind; `n` counts the requests served on the connection. */
  datatype Handled = Handled(events: seq<Event>, open: bool, buf: string, n: nat, rest: seq<Recv>)

  /** The bytes in hand or still to be read. */
  function Ahead(buf: string, rest: seq<Recv>): nat { |buf + Received(rest)| }

  /** Steps 1 and 2 once: drain, then serve. The count of requests matters only while the connection is open. */
  function RoundOf(script: seq<Recv>, buf: string, n: nat, keep: nat -> bool, limits: Limits): (h: Handled)
    ensures h.open ==> Ahead(h.buf, h.rest) <= Ahead(buf, script)
    ensures h.open && h.events != [] ==> Ahead(h.buf, h.rest) < Ahead(buf, script)
    ensures |h.rest| <= |script| && (script != [] ==> |h.rest| < |script|)
  {
    DrainKeeps(script, buf, limits.maxHeader + limits.maxBody);
    var (d, rest, drained) := DrainFrom(script, buf, limits.maxHeader + limits.maxBody);
    if d.TooLarge? then Handled([PayloadTooLarge], false, drained, n, rest)
    else if d.Broken? then Handled([], false, drained, n, rest)
    else
      var w := ServeAll(drained, n, keep, limits.maxHeader);
      ServeConserves(drained, n, keep, limits.maxHeader);
      Handled(w.events, w.open && !d.PeerClosed?, w.rest, n + |w.events|, rest)
  }

  /** A whole wake-up: rounds until one serves nothing, so that no bytes that came in meanwhile go unread. */
  function HandleFrom(script: seq<Recv>, buf: string, n: nat, keep: nat -> bool, limits: Limits): (h: Handled)
    decreases Ahead(buf, script)
  {
    var r := RoundOf(script, buf, n, keep, limits);
    if !r.open || r.events == [] then r
    else
      var h := HandleFrom(r.rest, r.buf, r.n, keep, limits);
      Onto(r.events, h)
  }

  class Conn {
    var inbuf: string
    var served: nat

    constructor ()
      ensures inbuf == "" && served == 0
    {
      inbuf, served := "", 0;
    }

    /** Step 1: read until the kernel has nothing more; an exhausted script blocks. */
    method Drain(script: seq<Recv>, limits: Limits) returns (d: Drained, rest: seq<Recv>)
      modifies this`inbuf
      ensures (d, rest, inbuf) == DrainFrom(script, old(inbuf), limits.maxHeader + limits.maxBody)
    {
      rest := script;
      while rest != []
        invariant DrainFrom(rest, inbuf, limits.maxHeader + limits.maxBody) ==
                  DrainFrom(script, old(inbuf), limits.maxHeader + limits.maxBody)
        decreases |rest|
      {
        var r := rest[0];
        rest := rest[1..];
        match r {
          case Data(bytes) =>
            inbuf := inbuf + bytes;
            if |inbuf| > limits.maxHeader + limits.maxBody { return TooLarge, rest; }
          case Interrupted =>
          case Eof => return PeerClosed, rest;
          case WouldBlock => return Blocked, rest;
          case Failed => return Broken, rest;
        }
      }
      d := Blocked;
    }

    /** Step 2: serve every complete request sitting in the buffer. */
    method ServeBuffered(keep: nat -> bool, maxHeader: nat) returns (events: seq<Event>, open: bool)
      modifies this
      ensures Walk(events, inbuf, open) == ServeAll(old(inbuf), old(served), keep, maxHeader)
      ensures open ==> served == old(served) + |events|
    {
      hide ParseRequest, FindHeaderEnd, ExpectedBytes, ServeAll, After;
      events, open := [], true;
      ghost var whole := ServeAll(inbuf, served, keep, maxHeader);
      AfterNone(whole);
      while true
        invariant whole == After(events, ServeAll(inbuf, served, keep, maxHeader))
        invariant served == old(served) + |events|
        decreases |inbuf|
      {
        ServeStep(events, inbuf, served, keep, maxHeader);
        var hend := FindHeaderEnd(inbuf);
        if hend.None? {
          if |inbuf| > maxHeader { return events + [HeadTooLarge], false; }
          return;
        }
        var req := Parse(inbuf);
        if !req.valid { return events + [BadRequest(Seen(req))], false; }
        var need := ExpectedBytes(req);
        if |inbuf| < need { return; }
        RawKept(inbuf);
        var e := Served(Seen(req), req.raw[..need]);
        assert NextOf(inbuf, maxHeader) == Serve(e, need);
        var keepOpen := keep(served);
        events, inbuf, served := events + [e], inbuf[need..], served + 1;
        if !keepOpen { return events, false; }
      }
    }

    /** One round of steps 1 and 2; `open` is false once the connection is closed. */
    method Round(script: seq<Recv>, keep: nat -> bool, limits: Limits)
      returns (events: seq<Event>, open: bool, rest: seq<Recv>)
      modifies this
      ensures Matches(RoundOf(script, old(inbuf), old(served), keep, limits), events, open, inbuf, served, rest)
    {
      hide ServeAll, DrainFrom, Ahead;
      var d;
      d, rest := Drain(script, limits);
      if d.TooLarge? { return [PayloadTooLarge], false, rest; }
      if d.Broken? { return [], false, rest; }
      events, open := ServeBuffered(keep, limits.maxHeader);
      open := open && !d.PeerClosed?;
    }

    /** One wake-up: the events in order, whether the connection was re-armed, and what is not yet read. */
    method HandleReady(script: seq<Recv>, keep: nat -> bool, limits: Limits)
      returns (events: seq<Event>, open: bool, rest: seq<Recv>)
      modifies this
      ensures Matches(HandleFrom(script, old(inbuf), old(served), keep, limits), events, open, inbuf, served, rest)
    {
      hide RoundOf, Ahead;
      events, open, rest := Round(script, keep, limits);
      var es := events;
      ghost var whole := HandleFrom(script, old(inbuf), old(served), keep, limits);
      while open && es != []
        invariant if open && es != [] then
                    whole == Onto(events, HandleFrom(rest, inbuf, served, keep, limits))
                  else
                    Matches(whole, events, open, inbuf, served, rest)
        decreases open, Ahead(inbuf, rest), es != []
      {
        ghost var before := events;
        es, open, rest := Round(rest, keep, limits);
        events := events + es;
        OntoOnto(before, es, HandleFrom(rest, inbuf, served, keep, limits));
      }
    }
  }

  function Onto(es: seq<Event>, h: Handled): Handled { h.(events := es + h.events) }

  lemma OntoOnto(es: seq<Event>, fs: seq<Event>, h: Handled)
    ensures Onto(es, Onto(fs, h)) == Onto(es + fs, h)
  {
    assert es + (fs + h.events) == (es + fs) + h.events;
  }

  /** The outcome of a round or wake-up is `h`; the count matters only while the connection is open. */
  predicate Matches(h: Handled, events: seq<Event>, open: bool, buf: string, n: nat, rest: seq<Recv>) {
    h.events == events && h.open == open && h.buf == buf && h.rest == rest && (open ==> h.n == n)
  }

  // ------------------------------------------------- what a wake-up promises

  /** Received bytes are the forwarded ones followed by the buffered ones; nothing is lost while the connection is open. */
  ghost predicate Conserved(buf0: string, script: seq<Recv>, events: seq<Event>, open: bool, buf: string, rest: seq<Recv>) {
    && Forwarded(events) + buf <= buf0 + Received(script)
    && (open ==> Forwarded(events) + (buf + Received(rest)) == buf0 + Received(script))
  }

  /** On a tame stream: the events so far, then those of what is left, are the events of the whole stream. */
  ghost predicate Faithful(buf0: string, script: seq<Recv>, n0: nat, events: seq<Event>, open: bool,
                           buf: string, rest: seq<Recv>, n: nat, keep: nat -> bool, limits: Limits)
  {
    Tame(buf0, script, n0, keep, limits) ==>
      var whole := ServeAll(buf0 + Received(script), n0, keep, limits.maxHeader);
      if open then
        && Tame(buf, rest, n, keep, limits)
        && whole == After(events, ServeAll(buf + Received(rest), n, keep, limits.maxHeader))
      else
        events == whole.events
  }

  /** What a round and a whole wake-up promise of their outcome. */
  ghost predicate Promised(h: Handled, buf0: string, script: seq<Recv>, n0: nat, keep: nat -> bool, limits: Limits) {
    && Conserved(buf0, script, h.events, h.open, h.buf, h.rest)
    && Faithful(buf0, script, n0, h.events, h.open, h.buf, h.rest, h.n, keep, limits)
    && (h.open ==> Quiet(h.buf, h.n, keep, limits.maxHeader))
  }

  /** A round that ends in a refusal of the payload or in a socket error. */
  lemma RoundRefused(buf0: string, script: seq<Recv>, n0: nat, drained: string, tail: string,
                     d: Drained, rest: seq<Recv>, n: nat, keep: nat -> bool, limits: Limits)
    requires drained + tail == buf0 + Received(script)
    requires d.TooLarge? ==> |drained| > limits.maxHeader + limits.maxBody
    requires d.Broken? ==> Failed in script
    requires d.TooLarge? || d.Broken?
    ensures Promised(Handled(if d.TooLarge? then [PayloadTooLarge] else [], false, drained, n, rest), buf0, script, n0, keep, limits)
  {
    hide Received, WellFramed, ServeAll, Forwarded;
    ForwardedNone();
    assert "" + drained == drained;
    assert |drained| <= |drained + tail|;
  }

  /** A round that drains, then serves. */
  lemma RoundServed(buf0: string, script: seq<Recv>, n0: nat, drained: string, tail: string, w: Walk,
                    d: Drained, rest: seq<Recv>, keep: nat -> bool, limits: Limits)
    requires drained + tail == buf0 + Received(script)
    requires tail == if d.PeerClosed? then "" else Received(rest)
    requires w == ServeAll(drained, n0, keep, limits.maxHeader)
    requires Failed in rest ==> Failed in script
    ensures Promised(Handled(w.events, w.open && !d.PeerClosed?, w.rest, n0 + |w.events|, rest), buf0, script, n0, keep, limits)
  {
    hide Received, WellFramed, ServeAll, Forwarded, Quiet, Faithful;
    ServeConserves(drained, n0, keep, limits.maxHeader);
    assert Forwarded(w.events) + (w.rest + tail) == drained + tail;
    RoundFaithful(buf0, script, n0, drained, tail, w, d, rest, n0 + |w.events|, keep, limits);
  }

  lemma RoundPromises(script: seq<Recv>, buf: string, n: nat, keep: nat -> bool, limits: Limits)
    ensures Promised(RoundOf(script, buf, n, keep, limits), buf, script, n, keep, limits)
  {
    hide Received, ServeAll, DrainFrom, Promised;
    var (d, rest, drained) := DrainFrom(script, buf, limits.maxHeader + limits.maxBody);
    DrainKeeps(script, buf, limits.maxHeader + limits.maxBody);
    var tail := if d.PeerClosed? then "" else Received(rest);
    if d.TooLarge? || d.Broken? {
      RoundRefused(buf, script, n, drained, tail, d, rest, n, keep, limits);
    } else {
      RoundServed(buf, script, n, drained, tail, ServeAll(drained, n, keep, limits.maxHeader), d, rest, keep, limits);
    }
  }

  /**
   A wake-up: every byte received is forwarded or still buffered, in order; a re-armed connection
   holds no complete request; and on a tame stream the events are those of the whole stream served
   at once, no matter where the `recv` pieces and wake-ups cut it.
   */
  lemma {:induction false} HandlePromises(script: seq<Recv>, buf: string, n: nat, keep: nat -> bool, limits: Limits)
    ensures Promised(HandleFrom(script, buf, n, keep, limits), buf, script, n, keep, limits)
    ensures |HandleFrom(script, buf, n, keep, limits).rest| <= |script|
    ensures script != [] ==> |HandleFrom(script, buf, n, keep, limits).rest| < |script|
    decreases Ahead(buf, script)
  {
    hide RoundOf, Ahead, Conserved, Faithful, Quiet;
    var r := RoundOf(script, buf, n, keep, limits);
    RoundPromises(script, buf, n, keep, limits);
    if r.open && r.events != [] {
      HandlePromises(r.rest, r.buf, r.n, keep, limits);
      var h := HandleFrom(r.rest, r.buf, r.n, keep, limits);
      ConservedTrans(buf, script, r.events, r.buf, r.rest, h.events, h.open, h.buf, h.rest);
      FaithfulTrans(buf, script, n, r.events, r.buf, r.rest, r.n, h.events, h.open, h.buf, h.rest, h.n, keep, limits);
    }
  }

  /** Starting from the first arguments, rounds that serve the events `es`, none of them idle, arrive at `(s, b, m)`. */
  ghost predicate Reaches(script: seq<Recv>, buf: string, n: nat, es: seq<Event>, s: seq<Recv>, b: string, m: nat,
                          keep: nat -> bool, limits: Limits)
    decreases |es|
  {
    if es == [] then s == script && b == buf && m == n
    else
      var r := RoundOf(script, buf, n, keep, limits);
      r.open && r.events != [] && r.events <= es && Reaches(r.rest, r.buf, r.n, es[|r.events|..], s, b, m, keep, limits)
  }

  /**
   Before a connection is re-armed it is drained again after its last request was served: from where the rounds that
   served its events arrive, one more round reads until the kernel has nothing more, and finds nothing to serve.
   */
  lemma {:induction false} DrainedBeforeRearm(script: seq<Recv>, buf: string, n: nat, keep: nat -> bool, limits: Limits)
    returns (s: seq<Recv>, b: string, m: nat)
    requires HandleFrom(script, buf, n, keep, limits).open
    ensures var h := HandleFrom(script, buf, n, keep, limits);
            && Reaches(script, buf, n, h.events, s, b, m, keep, limits)
            && DrainFrom(s, b, limits.maxHeader + limits.maxBody).0.Blocked?
            && RoundOf(s, b, m, keep, limits) == h.(events := [])
    decreases Ahead(buf, script)
  {
    hide RoundOf, Ahead, DrainFrom;
    var r := RoundOf(script, buf, n, keep, limits);
    if r.events == [] {
      s, b, m := script, buf, n;
      OpenIsBlocked(script, buf, n, keep, limits);
      assert r == r.(events := []);
    } else {
      s, b, m := DrainedBeforeRearm(r.rest, r.buf, r.n, keep, limits);
      var more := HandleFrom(r.rest, r.buf, r.n, keep, limits).events;
      assert (r.events + more)[|r.events|..] == more;
    }
  }

  lemma OpenIsBlocked(script: seq<Recv>, buf: string, n: nat, keep: nat -> bool, limits: Limits)
    requires RoundOf(script, buf, n, keep, limits).open
    ensures DrainFrom(script, buf, limits.maxHeader + limits.maxBody).0.Blocked?
  {
    hide DrainFrom, ServeAll, Ahead;
  }

  /** A handler that re-armed after its first round would break that promise whenever it served something with more to read. */
  lemma OneRoundFallsShort(script: seq<Recv>, buf: string, n: nat, keep: nat -> bool, limits: Limits, s: seq<Recv>, b: string, m: nat)
    requires var r := RoundOf(script, buf, n, keep, limits); r.open && r.events != [] && r.rest != []
    ensures var r := RoundOf(script, buf, n, keep, limits);
            !(Reaches(script, buf, n, r.events, s, b, m, keep, limits) && RoundOf(s, b, m, keep, limits) == r.(events := []))
  {
    hide RoundOf, Ahead;
    var r := RoundOf(script, buf, n, keep, limits);
    assert r.events[|r.events|..] == [];
    assert |RoundOf(r.rest, r.buf, r.n, keep, limits).rest| < |r.rest|;
  }

  // ------------------------------------------------------- how reading ends

  /** How a drain ends: by its last result of `recv`, every other one having brought bytes or nothing. */
  predicate DrainedRightly(used: seq<Recv>, rest: seq<Recv>, buf: string, d: Drained, buf': string, cap: nat) {
    var n := |used|;
    && buf' == buf + Received(used)
    && if n == 0 then rest == [] && d == Blocked
       else
         && (forall i :: 0 <= i < n - 1 ==> used[i].Data? || used[i].Interrupted?)
         && match used[n - 1]
            case WouldBlock => d == Blocked
            case Eof => d == PeerClosed
            case Failed => d == Broken
            case Interrupted => rest == [] && d == Blocked
            case Data(_) => if |buf'| > cap then d == TooLarge else rest == [] && d == Blocked
  }

  lemma {:induction false} DrainEnds(script: seq<Recv>, buf: string, cap: nat) returns (used: seq<Recv>)
    ensures var (d, rest, buf') := DrainFrom(script, buf, cap);
            script == used + rest && DrainedRightly(used, rest, buf, d, buf', cap)
    decreases |script|
  {
    hide DrainedRightly, Received;
    if script == [] {
      used := [];
      NothingDrained(buf, cap);
    } else {
      var r, more := script[0], script[1..];
      assert script == [r] + more;
      var b := if r.Data? then r.bytes else "";
      if r.Interrupted? || (r.Data? && |buf + b| <= cap) {
        assert buf + "" == buf;
        var used' := DrainEnds(more, buf + b, cap);
        used := [r] + used';
        var (d, rest, buf') := DrainFrom(more, buf + b, cap);
        DrainedLonger(r, used', rest, buf, d, buf', cap);
      } else {
        used := [r];
        LastDrained(r, more, buf, cap);
      }
    }
  }

  lemma NothingDrained(buf: string, cap: nat)
    ensures DrainedRightly([], [], buf, Blocked, buf, cap)
  {
    ReceivedNone();
    assert buf + "" == buf;
  }

  lemma DrainedLonger(r: Recv, used: seq<Recv>, rest: seq<Recv>, buf: string, d: Drained, buf': string, cap: nat)
    requires r.Interrupted? || r.Data?
    requires var b := if r.Data? then r.bytes else "";
             |buf + b| <= cap || r.Interrupted?
    requires DrainedRightly(used, rest, buf + (if r.Data? then r.bytes else ""), d, buf', cap)
    ensures DrainedRightly([r] + used, rest, buf, d, buf', cap)
  {
    hide Received;
    var b := if r.Data? then r.bytes else "";
    ReceivedCons(r, used);
    assert buf + (b + Received(used)) == (buf + b) + Received(used);
    if used == [] {
      ReceivedNone();
      assert [r] + used == [r] && (buf + b) + "" == buf + b;
    } else {
      assert ([r] + used)[|used|] == used[|used| - 1];
    }
  }

  lemma LastDrained(r: Recv, rest: seq<Recv>, buf: string, cap: nat)
    requires !r.Interrupted? && (r.Data? ==> |buf + r.bytes| > cap)
    ensures var (d, rest', buf') := DrainFrom([r] + rest, buf, cap); rest' == rest && DrainedRightly([r], rest, buf, d, buf', cap)
  {
    ReceivedCons(r, []);
    ReceivedNone();
    assert [r] + [] == [r] && ([r] + rest)[1..] == rest && buf + "" == buf;
    assert r.Data? ==> r.bytes + "" == r.bytes;
  }

  /**
   Over a whole wake-up: one that meets a reset or end of file closes the connection, and one that re-arms it has
   read until the kernel had nothing more, last of all.
   */
  lemma {:induction false} ResetCloses(script: seq<Recv>, buf: string, n: nat, keep: nat -> bool, limits: Limits) returns (used: seq<Recv>)
    ensures var h := HandleFrom(script, buf, n, keep, limits);
            && script == used + h.rest
            && (Failed in used || Eof in used ==> !h.open)
            && (h.open && h.rest != [] ==> used != [] && used[|used| - 1] == WouldBlock)
    decreases Ahead(buf, script)
  {
    hide RoundOf, Ahead, DrainFrom, ServeAll, DrainedRightly;
    var r := RoundOf(script, buf, n, keep, limits);
    used := RoundReads(script, buf, n, keep, limits);
    if r.open && r.events != [] {
      var used' := ResetCloses(r.rest, r.buf, r.n, keep, limits);
      var h := HandleFrom(r.rest, r.buf, r.n, keep, limits);
      assert used + (used' + h.rest) == (used + used') + h.rest;
      if used' == [] { assert used + used' == used; }
      used := used + used';
    }
  }

  lemma RoundReads(script: seq<Recv>, buf: string, n: nat, keep: nat -> bool, limits: Limits) returns (used: seq<Recv>)
    ensures var r := RoundOf(script, buf, n, keep, limits);
            && script == used + r.rest
            && (Failed in used || Eof in used ==> !r.open)
            && (r.open && r.rest != [] ==> used != [] && used[|used| - 1] == WouldBlock)
  {
    hide DrainFrom, ServeAll, Ahead, Received;
    var cap := limits.maxHeader + limits.maxBody;
    used := DrainEnds(script, buf, cap);
    var k := |used|;
    if k > 0 { assert used == used[..k - 1] + [used[k - 1]]; }
  }

  lemma RoundFaithful(buf0: string, script: seq<Recv>, n0: nat, drained: string, tail: string, w: Walk,
                      d: Drained, rest: seq<Recv>, n: nat, keep: nat -> bool, limits: Limits)
    requires drained + tail == buf0 + Received(script)
    requires tail == if d.PeerClosed? then "" else Received(rest)
    requires w == ServeAll(drained, n0, keep, limits.maxHeader)
    requires w.open ==> n == n0 + |w.events|
    requires |w.rest| <= |drained|
    requires Failed in rest ==> Failed in script
    ensures Faithful(buf0, script, n0, w.events, w.open && !d.PeerClosed?, w.rest, rest, n, keep, limits)
  {
    hide Received, WellFramed, ServeAll;
    if Tame(buf0, script, n0, keep, limits) {
      if d.PeerClosed? {
        assert drained + tail == drained;
      } else {
        ServePrefix(drained, tail, n0, keep, limits.maxHeader);
      }
    }
  }

  lemma ConservedTrans(buf0: string, script: seq<Recv>, es: seq<Event>, buf1: string, rest1: seq<Recv>,
                       fs: seq<Event>, open: bool, buf: string, rest: seq<Recv>)
    requires Conserved(buf0, script, es, true, buf1, rest1)
    requires Conserved(buf1, rest1, fs, open, buf, rest)
    ensures Conserved(buf0, script, es + fs, open, buf, rest)
  {
    hide Forwarded, Received;
    ForwardedConcat(es, fs);
    assert Forwarded(es + fs) + buf == Forwarded(es) + (Forwarded(fs) + buf);
    if open {
      assert Forwarded(es + fs) + (buf + Received(rest)) == Forwarded(es) + (Forwarded(fs) + (buf + Received(rest)));
    }
  }

  lemma FaithfulTrans(buf0: string, script: seq<Recv>, n0: nat, es: seq<Event>, buf1: string, rest1: seq<Recv>, n1: nat,
                      fs: seq<Event>, open: bool, buf: string, rest: seq<Recv>, n: nat, keep: nat -> bool, limits: Limits)
    requires Faithful(buf0, script, n0, es, true, buf1, rest1, n1, keep, limits)
    requires Faithful(buf1, rest1, n1, fs, open, buf, rest, n, keep, limits)
    ensures Faithful(buf0, script, n0, es + fs, open, buf, rest, n, keep, limits)
  {
    hide ServeAll, Received, WellFramed;
    AfterAfter(es, fs, ServeAll(buf + Received(rest), n, keep, limits.maxHeader));
  }

  /** A connection over all its wake-ups, each of which reads at least one result of `recv`. */
  function ConnectionFrom(script: seq<Recv>, buf: string, n: nat, keep: nat -> bool, limits: Limits): seq<Event>
    decreases |script|
  {
    if script == [] then []
    else
      var h := HandleFrom(script, buf, n, keep, limits);
      HandlePromises(script, buf, n, keep, limits);
      h.events + if h.open then ConnectionFrom(h.rest, h.buf, h.n, keep, limits) else []
  }

  /**
   Segmentation independence: on a tame stream the events of a connection, over any `recv` pieces and any
   wake-ups, are those of serving the received bytes all at once: a function of the bytes alone.
   */
  lemma {:induction false} SegmentationIndependent(script: seq<Recv>, buf: string, n: nat, keep: nat -> bool, limits: Limits)
    requires Tame(buf, script, n, keep, limits) && Quiet(buf, n, keep, limits.maxHeader)
    ensures ConnectionFrom(script, buf, n, keep, limits) == ServeAll(buf + Received(script), n, keep, limits.maxHeader).events
    decreases |script|
  {
    hide ServeAll, Received, WellFramed, HandleFrom, Conserved;
    if script == [] {
      ReceivedNone();
      assert buf + "" == buf;
    } else {
      var h := HandleFrom(script, buf, n, keep, limits);
      HandlePromises(script, buf, n, keep, limits);
      if h.open { SegmentationIndependent(h.rest, h.buf, h.n, keep, limits); }
    }
  }

  /** No result brings more bytes than the buffer given to `recv` holds, and none is empty. */
  predicate PieceSized(script: seq<Recv>) {
    forall i :: 0 <= i < |script| && script[i].Data? ==> 0 < |script[i].bytes| <= RECV_MAX
  }

  /** One way the kernel can deliver the stream `s`. */
  predicate Delivers(script: seq<Recv>, s: string) { Failed !in script && PieceSized(script) && Received(script) == s }

  /** Any two deliveries of the stream give the same events. */
  ghost predicate SameAtEveryCut(s: string, keep: nat -> bool, limits: Limits) {
    forall a, b :: Delivers(a, s) && Delivers(b, s) ==>
      ConnectionFrom(a, "", 0, keep, limits) == ConnectionFrom(b, "", 0, keep, limits)
  }

  /**
   What is refused, whatever the pieces and wake-ups: a stream without a head waits, or is one 431 when it is longer than
   the limit; a head that is no good request is one 400, whatever follows it.
   */
  lemma RefusedOnce(s: string, script: seq<Recv>, keep: nat -> bool, limits: Limits)
    requires Delivers(script, s) && HeadOk(s, limits.maxHeader) && |s| <= limits.maxHeader + limits.maxBody
    ensures FindHeaderEnd(s).None? ==>
              ConnectionFrom(script, "", 0, keep, limits) == if |s| > limits.maxHeader then [HeadTooLarge] else []
    ensures FindHeaderEnd(s).Some? && !ParseRequest(s).valid ==>
              ConnectionFrom(script, "", 0, keep, limits) == [BadRequest(Seen(ParseRequest(s)))]
  {
    hide Received, HeadOk, ConnectionFrom, ParseRequest, FindHeaderEnd, PieceSized, Quiet;
    assert "" + s == s;
    if FindHeaderEnd(s).None? || !ParseRequest(s).valid {
      NothingIsQuiet(keep, limits.maxHeader);
      SegmentationIndependent(script, "", 0, keep, limits);
    }
  }

  /** The stream in one burst. */
  function Burst(s: string): seq<Recv> { Pieces(s, RECV_MAX) }

  /** The stream up to `k`, then, after the kernel has had nothing more, the rest. */
  function CutAt(s: string, k: nat): seq<Recv>
    requires k <= |s|
  {
    Burst(s[..k]) + ([WouldBlock] + Burst(s[k..]))
  }

  lemma BurstDelivers(s: string)
    ensures Delivers(Burst(s), s)
  {
    hide Received, Pieces;
    var b := Burst(s);
    forall i | 0 <= i < |b| && b[i].Data? ensures 0 < |b[i].bytes| <= RECV_MAX { assert b[i] in b; }
  }

  lemma CutDelivers(s: string, k: nat)
    requires k <= |s|
    ensures Delivers(CutAt(s, k), s)
  {
    hide Received, Burst;
    var a, b := Burst(s[..k]), Burst(s[k..]);
    BurstDelivers(s[..k]);
    BurstDelivers(s[k..]);
    BurstHasNoEof(s[..k]);
    ReceivedCons(WouldBlock, b);
    ReceivedConcat(a, [WouldBlock] + b);
    assert s[..k] + s[k..] == s && "" + s[k..] == s[k..];
  }

  lemma BurstHasNoEof(s: string)
    ensures Eof !in Burst(s)
  {
    hide Pieces;
  }

  /** A burst that fits is in the buffer when the kernel has nothing more. */
  lemma {:induction false} DrainBurst(x: string, tail: seq<Recv>, buf: string, cap: nat)
    requires |buf + x| <= cap
    ensures DrainFrom(Burst(x) + tail, buf, cap) == DrainFrom(tail, buf + x, cap)
    decreases |x|
  {
    if x == "" {
      assert Burst(x) + tail == tail && buf + x == buf;
    } else {
      var n := if |x| <= RECV_MAX then |x| else RECV_MAX;
      BurstSplits(x, n, tail);
      assert buf + x == (buf + x[..n]) + x[n..];
      DrainData(x[..n], Burst(x[n..]) + tail, buf, cap);
      DrainBurst(x[n..], tail, buf + x[..n], cap);
    }
  }

  lemma BurstSplits(x: string, n: nat, tail: seq<Recv>)
    requires x != "" && n == if |x| <= RECV_MAX then |x| else RECV_MAX
    ensures Burst(x) + tail == [Data(x[..n])] + (Burst(x[n..]) + tail)
  {
  }

  lemma DrainData(bytes: string, tail: seq<Recv>, buf: string, cap: nat)
    ensures DrainFrom([Data(bytes)] + tail, buf, cap) ==
            if |buf + bytes| > cap then (TooLarge, tail, buf + bytes) else DrainFrom(tail, buf + bytes, cap)
  {
    assert ([Data(bytes)] + tail)[1..] == tail;
  }

  /** One that does not fit is too large. */
  lemma {:induction false} DrainOverflow(x: string, tail: seq<Recv>, buf: string, cap: nat)
    requires |buf| <= cap < |buf + x|
    ensures DrainFrom(Burst(x) + tail, buf, cap).0 == TooLarge
    decreases |x|
  {
    var n := if |x| <= RECV_MAX then |x| else RECV_MAX;
    BurstSplits(x, n, tail);
    assert buf + x == (buf + x[..n]) + x[n..];
    DrainData(x[..n], Burst(x[n..]) + tail, buf, cap);
    if |buf + x[..n]| <= cap { DrainOverflow(x[n..], tail, buf + x[..n], cap); }
  }

  lemma DrainBlocked(tail: seq<Recv>, buf: string, cap: nat)
    ensures DrainFrom([WouldBlock] + tail, buf, cap) == (Blocked, tail, buf)
  {
    assert ([WouldBlock] + tail)[1..] == tail;
  }

  lemma DrainCut(s: string, k: nat, cap: nat)
    requires k <= |s| && k <= cap
    ensures DrainFrom(CutAt(s, k), "", cap) == (Blocked, Burst(s[k..]), s[..k])
  {
    hide DrainFrom, Burst;
    assert "" + s[..k] == s[..k];
    DrainBurst(s[..k], [WouldBlock] + Burst(s[k..]), "", cap);
    DrainBlocked(Burst(s[k..]), s[..k], cap);
  }

  lemma DrainOne(s: string, cap: nat)
    requires |s| <= cap
    ensures DrainFrom(Burst(s), "", cap) == (Blocked, [], s)
  {
    hide Burst;
    assert "" + s == s && Burst(s) + [] == Burst(s);
    DrainBurst(s, [], "", cap);
  }

  lemma DrainNothing(buf: string, cap: nat)
    ensures DrainFrom([], buf, cap) == (Blocked, [], buf)
  {
  }

  /** What is served first on a stream cut at `k` is what its first `k` bytes call for. */
  lemma CutServesFirst(s: string, k: nat, keep: nat -> bool, limits: Limits)
    requires k <= |s| && k <= limits.maxHeader + limits.maxBody
    ensures ServeAll(s[..k], 0, keep, limits.maxHeader).events <= ConnectionFrom(CutAt(s, k), "", 0, keep, limits)
  {
    hide ServeAll, Ahead, DrainFrom, RoundOf, Burst;
    DrainCut(s, k, limits.maxHeader + limits.maxBody);
    assert CutAt(s, k) != [];
    RoundOfDrained(CutAt(s, k), keep, limits, s[..k]);
  }

  lemma RoundOfDrained(script: seq<Recv>, keep: nat -> bool, limits: Limits, buf: string)
    requires script != []
    requires var d := DrainFrom(script, "", limits.maxHeader + limits.maxBody); d.0 == Blocked && d.2 == buf
    ensures ServeAll(buf, 0, keep, limits.maxHeader).events <= ConnectionFrom(script, "", 0, keep, limits)
  {
    hide ServeAll, Ahead, DrainFrom;
    assert RoundOf(script, "", 0, keep, limits).events == ServeAll(buf, 0, keep, limits.maxHeader).events;
    hide RoundOf;
    var r, h := RoundOf(script, "", 0, keep, limits), HandleFrom(script, "", 0, keep, limits);
    assert r.events <= h.events;
    assert h.events <= ConnectionFrom(script, "", 0, keep, limits);
  }

  /** A stream that is not well framed has a prefix that calls for events the whole stream does not begin with. */
  lemma {:induction false} BadCut(s: string, n: nat, keep: nat -> bool, maxHeader: nat) returns (k: nat)
    requires !WellFramed(s, n, keep, maxHeader)
    ensures k <= |s| && !(ServeAll(s[..k], n, keep, maxHeader).events <= ServeAll(s, n, keep, maxHeader).events)
    decreases |s|
  {
    hide NextOf, HeadOk;
    if !HeadOk(s, maxHeader) {
      k := CutWitness(s, maxHeader);
      FirstEvent(s[..k], n, keep, maxHeader);
      FirstEvent(s, n, keep, maxHeader);
      if !NextOf(s, maxHeader).Wait? { EventsTellApart(s[..k], s, maxHeader); }
    } else {
      var need := NextOf(s, maxHeader).need;
      var k' := BadCut(s[need..], n + 1, keep, maxHeader);
      k := need + k';
      ServedOnceThere(s, k, maxHeader);
      assert s[..k][need..] == s[need..][..k'];
      ConsPrefix(NextOf(s, maxHeader).served, ServeAll(s[need..][..k'], n + 1, keep, maxHeader).events,
        ServeAll(s[need..], n + 1, keep, maxHeader).events);
    }
  }

  lemma ConsPrefix(e: Event, a: seq<Event>, b: seq<Event>)
    requires !(a <= b)
    ensures !([e] + a <= [e] + b)
  {
    assert ([e] + a)[1..] == a && ([e] + b)[1..] == b;
  }

  lemma FirstEvent(s: string, n: nat, keep: nat -> bool, maxHeader: nat)
    ensures var next, es := NextOf(s, maxHeader), ServeAll(s, n, keep, maxHeader).events;
            if next.Wait? then es == [] else es != [] && es[0] == EventOfNext(next)
  {
    hide NextOf;
  }

  // ------------------------------------------------ above the payload limit

  /** Nothing is decided on any prefix that fits the buffer. */
  predicate NeverDecides(s: string, limits: Limits) {
    forall k: nat :: k <= |s| && k <= limits.maxHeader + limits.maxBody ==> NextOf(s[..k], limits.maxHeader).Wait?
  }

  /** On such a stream every delivery ends in a 413 alone. */
  lemma {:induction false} AlwaysTooLarge(s: string, k: nat, script: seq<Recv>, n: nat, keep: nat -> bool, limits: Limits)
    requires k <= limits.maxHeader + limits.maxBody < |s| && NeverDecides(s, limits)
    requires s[..k] + Received(script) == s && Failed !in script
    ensures ConnectionFrom(script, s[..k], n, keep, limits) == [PayloadTooLarge]
    decreases |script|
  {
    hide Received, NextOf, DrainFrom, Ahead, ServeAll, RoundOf;
    if script == [] {
      ReceivedNone();
    } else {
      var cap := limits.maxHeader + limits.maxBody;
      DrainKeeps(script, s[..k], cap);
      var (d, rest, buf) := DrainFrom(script, s[..k], cap);
      RoundAbove(script, s[..k], n, keep, limits);
      if !d.TooLarge? {
        assert d.PeerClosed? ==> buf + "" == buf;
        assert buf == s[..|buf|];
        FirstEvent(buf, n, keep, limits.maxHeader);
        WaitingRound(buf, n, keep, limits.maxHeader);
        AlwaysTooLarge(s, |buf|, rest, n, keep, limits);
      }
    }
  }

  lemma WaitingRound(buf: string, n: nat, keep: nat -> bool, maxHeader: nat)
    requires NextOf(buf, maxHeader).Wait?
    ensures ServeAll(buf, n, keep, maxHeader) == Walk([], buf, true)
  {
    hide NextOf;
  }

  /** The outcome of a round, from how its drain ended. */
  lemma RoundAbove(script: seq<Recv>, buf: string, n: nat, keep: nat -> bool, limits: Limits)
    ensures var (d, rest, drained) := DrainFrom(script, buf, limits.maxHeader + limits.maxBody);
            var r, w := RoundOf(script, buf, n, keep, limits), ServeAll(drained, n, keep, limits.maxHeader);
            && (d.TooLarge? ==> r == Handled([PayloadTooLarge], false, drained, n, rest))
            && (d.Blocked? ==> r == Handled(w.events, w.open, w.rest, n + |w.events|, rest))
  {
    hide DrainFrom, ServeAll, Ahead;
  }

  /** In one burst the stream is too large. */
  lemma BurstTooLarge(s: string, keep: nat -> bool, limits: Limits)
    requires |s| > limits.maxHeader + limits.maxBody
    ensures ConnectionFrom(Burst(s), "", 0, keep, limits) == [PayloadTooLarge]
  {
    hide DrainFrom, ServeAll, Ahead, RoundOf, Burst;
    assert "" + s == s && Burst(s) + [] == Burst(s);
    DrainOverflow(s, [], "", limits.maxHeader + limits.maxBody);
    RoundAbove(Burst(s), "", 0, keep, limits);
    BurstDelivers(s);
    if Burst(s) == [] { ReceivedNone(); }
  }

  /** Where the decision of some prefix that fits comes in time, that delivery does not begin with a 413. */
  lemma DecidedInTime(s: string, k: nat, keep: nat -> bool, limits: Limits)
    requires k <= |s| && k <= limits.maxHeader + limits.maxBody && !NextOf(s[..k], limits.maxHeader).Wait?
    ensures var es := ConnectionFrom(CutAt(s, k), "", 0, keep, limits);
            es != [] && es[0] == EventOfNext(NextOf(s[..k], limits.maxHeader)) && es[0] != PayloadTooLarge
  {
    hide NextOf, ServeAll, ConnectionFrom, CutAt;
    CutServesFirst(s, k, keep, limits);
    FirstEvent(s[..k], 0, keep, limits.maxHeader);
    NeverPayload(s[..k], limits.maxHeader);
  }

  lemma NeverPayload(s: string, maxHeader: nat)
    requires !NextOf(s, maxHeader).Wait?
    ensures EventOfNext(NextOf(s, maxHeader)) != PayloadTooLarge
  {
    hide FindHeaderEnd, ParseRequest;
  }

  // -------------------------------------------------------- the exact condition

  /** Within the payload limit: the condition at each request. Above it: nothing is decided before the limit is passed. */
  predicate CutsDoNotMatter(s: string, keep: nat -> bool, limits: Limits) {
    if |s| <= limits.maxHeader + limits.maxBody then WellFramed(s, 0, keep, limits.maxHeader) else NeverDecides(s, limits)
  }

  /**
   The exact condition for a whole connection: whatever the stream, the limits and the answers, every way of delivering
   the stream without a socket error gives the same events if and only if the condition holds.
   */
  lemma SegmentationIndependentIff(s: string, keep: nat -> bool, limits: Limits)
    ensures SameAtEveryCut(s, keep, limits) <==> CutsDoNotMatter(s, keep, limits)
  {
    hide WellFramed, NeverDecides, SameAtEveryCut;
    if |s| <= limits.maxHeader + limits.maxBody { IndependentWithin(s, keep, limits); } else { IndependentAbove(s, keep, limits); }
  }

  lemma IndependentWithin(s: string, keep: nat -> bool, limits: Limits)
    requires |s| <= limits.maxHeader + limits.maxBody
    ensures SameAtEveryCut(s, keep, limits) <==> WellFramed(s, 0, keep, limits.maxHeader)
  {
    hide ServeAll, WellFramed, ConnectionFrom, NextOf, Received, PieceSized, Burst, CutAt;
    assert "" + s == s;
    if WellFramed(s, 0, keep, limits.maxHeader) {
      NothingIsQuiet(keep, limits.maxHeader);
      forall a | Delivers(a, s)
        ensures ConnectionFrom(a, "", 0, keep, limits) == ServeAll(s, 0, keep, limits.maxHeader).events
      {
        SegmentationIndependent(a, "", 0, keep, limits);
      }
    } else {
      var k := BadCut(s, 0, keep, limits.maxHeader);
      CutDelivers(s, k);
      CutServesFirst(s, k, keep, limits);
      BurstDelivers(s);
      AllAtOnce(s, keep, limits);
    }
  }

  lemma IndependentAbove(s: string, keep: nat -> bool, limits: Limits)
    requires |s| > limits.maxHeader + limits.maxBody
    ensures SameAtEveryCut(s, keep, limits) <==> NeverDecides(s, limits)
  {
    hide ConnectionFrom, NextOf, Received, PieceSized, Burst, CutAt;
    if NeverDecides(s, limits) {
      assert s[..0] == "";
      forall a | Delivers(a, s) ensures ConnectionFrom(a, "", 0, keep, limits) == [PayloadTooLarge] {
        assert "" + s == s;
        AlwaysTooLarge(s, 0, a, 0, keep, limits);
      }
    } else {
      var k: nat :| k <= |s| && k <= limits.maxHeader + limits.maxBody && !NextOf(s[..k], limits.maxHeader).Wait?;
      CutDelivers(s, k);
      DecidedInTime(s, k, keep, limits);
      BurstDelivers(s);
      BurstTooLarge(s, keep, limits);
    }
  }

  /** The stream in one burst: everything is served in the first round, and the second finds nothing more. */
  lemma AllAtOnce(s: string, keep: nat -> bool, limits: Limits)
    requires |s| <= limits.maxHeader + limits.maxBody
    ensures ConnectionFrom(Burst(s), "", 0, keep, limits) == ServeAll(s, 0, keep, limits.maxHeader).events
  {
    hide ServeAll, Ahead, DrainFrom, Burst;
    if Burst(s) == [] {
      BurstDelivers(s);
      ReceivedNone();
      NothingIsQuiet(keep, limits.maxHeader);
    } else {
      DrainOne(s, limits.maxHeader + limits.maxBody);
      ServeConserves(s, 0, keep, limits.maxHeader);
      AfterBurst(Burst(s), s, keep, limits);
    }
  }

  lemma AfterBurst(script: seq<Recv>, s: string, keep: nat -> bool, limits: Limits)
    requires script != [] && DrainFrom(script, "", limits.maxHeader + limits.maxBody) == (Blocked, [], s)
    ensures ConnectionFrom(script, "", 0, keep, limits) == ServeAll(s, 0, keep, limits.maxHeader).events
  {
    hide ServeAll, Ahead, DrainFrom;
    var w := ServeAll(s, 0, keep, limits.maxHeader);
    ServeConserves(s, 0, keep, limits.maxHeader);
    var r := RoundOf(script, "", 0, keep, limits);
    assert r == Handled(w.events, w.open, w.rest, |w.events|, []);
    if w.open && w.events != [] {
      DrainNothing(w.rest, limits.maxHeader + limits.maxBody);
      var r' := RoundOf([], w.rest, |w.events|, keep, limits);
      assert r' == Handled([], true, w.rest, |w.events|, []);
      hide RoundOf;
      assert HandleFrom([], w.rest, |w.events|, keep, limits) == r';
    }
    hide RoundOf;
    assert HandleFrom(script, "", 0, keep, limits).events == w.events;
  }

  lemma NothingIsQuiet(keep: nat -> bool, maxHeader: nat)
    ensures Quiet("", 0, keep, maxHeader)
  {
    hide FindHeaderEnd;
    NoHeadInNothing();
    NextWithoutHead("", maxHeader);
  }

  lemma NoHeadInNothing()
    ensures FindHeaderEnd("") == None
  {
  }

  /** On any stream at all the bytes served are a prefix of the bytes received, in order. */
  lemma {:induction false} ConnectionConserves(script: seq<Recv>, buf: string, n: nat, keep: nat -> bool, limits: Limits)
    ensures Forwarded(ConnectionFrom(script, buf, n, keep, limits)) <= buf + Received(script)
    decreases |script|
  {
    hide Received, HandleFrom, Forwarded, Faithful, Quiet;
    if script == [] {
      ForwardedNone();
    } else {
      var h := HandleFrom(script, buf, n, keep, limits);
      HandlePromises(script, buf, n, keep, limits);
      if h.open {
        var more := ConnectionFrom(h.rest, h.buf, h.n, keep, limits);
        ConnectionConserves(h.rest, h.buf, h.n, keep, limits);
        ForwardedConcat(h.events, more);
        assert Forwarded(h.events) + Forwarded(more) <= Forwarded(h.events) + (h.buf + Received(h.rest));
      } else {
        assert h.events + [] == h.events;
      }
    }
  }

  /** The connection object driven by readiness events until it is closed or nothing more comes. */
  method ServeConnection(script: seq<Recv>, keep: nat -> bool, limits: Limits) returns (events: seq<Event>)
    ensures events == ConnectionFrom(script, "", 0, keep, limits)
  {
    hide HandleFrom;
    var c := new Conn();
    var open, rest := true, script;
    events := [];
    while open && rest != []
      invariant fresh(c)
      invariant ConnectionFrom(script, "", 0, keep, limits) ==
                events + if open then ConnectionFrom(rest, c.inbuf, c.served, keep, limits) else []
      decreases |rest|
    {
      HandlePromises(rest, c.inbuf, c.served, keep, limits);
      ghost var before := events;
      var es;
      es, open, rest := c.HandleReady(rest, keep, limits);
      events := events + es;
      assert open ==> before + (es + ConnectionFrom(rest, c.inbuf, c.served, keep, limits)) ==
                      events + ConnectionFrom(rest, c.inbuf, c.served, keep, limits);
    }
  }
}
