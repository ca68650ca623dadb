/** The kernel as the proxy sees it on one socket: a script of `recv` results. */
module Net {

  datatype Limits = Limits(maxHeader: nat, maxBody: nat)

  /** The size of the buffer given to `recv`. */
  const RECV_MAX := 16384

  /** One result of `recv`. */
  datatype Recv = Data(bytes: string) | Interrupted | WouldBlock | Eof | Failed

  /** The bytes a script delivers before end of file. */
  function Received(script: seq<Recv>): string {
    if script == [] || script[0].Eof? then ""
    else (if script[0].Data? then script[0].bytes else "") + Received(script[1..])
  }

  lemma ReceivedCons(r: Recv, script: seq<Recv>)
    ensures Received([r] + script) == if r.Eof? then "" else (if r.Data? then r.bytes else "") + Received(script)
  {
    assert ([r] + script)[1..] == script;
  }

  lemma ReceivedNone()
    ensures Received([]) == ""
  {
  }

  lemma {:induction false} ReceivedConcat(a: seq<Recv>, b: seq<Recv>)
    requires Eof !in a
    ensures Received(a + b) == Received(a) + Received(b)
  {
    if a == [] {
      assert a + b == b;
    } else {
      assert (a + b)[0] == a[0] && (a + b)[1..] == a[1..] + b;
      ReceivedConcat(a[1..], b);
    }
  }

  /** Results that bring bytes, between one and `most` at a time, or nothing. */
  predicate Bounded(pieces: seq<Recv>, most: nat) {
    forall i :: 0 <= i < |pieces| ==> pieces[i].Interrupted? || (pieces[i].Data? && 0 < |pieces[i].bytes| <= most)
  }

  /** A text in pieces as large as they can be. */
  function Pieces(s: string, most: nat): (r: seq<Recv>)
    requires most >= 1
    ensures Bounded(r, most) && Received(r) == s && Eof !in r && Failed !in r && WouldBlock !in r
    decreases |s|
  {
    if s == "" then []
    else
      var n := if |s| <= most then |s| else most;
      var r := [Data(s[..n])] + Pieces(s[n..], most);
      ReceivedCons(Data(s[..n]), Pieces(s[n..], most));
      assert s == s[..n] + s[n..];
      r
  }
}
