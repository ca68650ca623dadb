/** `send_all`: writing all bytes of a response through a socket that may take fewer than asked. */
module Sender {

  /** One result of `send`; after "would block" the answer of the following `poll` is `writable`. */
  datatype Send = Took(n: nat) | WouldBlock(writable: bool) | Interrupted | Broken

  const MAX_SPINS := 1000

  /** How many bytes a socket takes before the first result `send_all` gives up on, if asked for ever more. */
  function Room(script: seq<Send>, spins: nat): nat {
    if script == [] then 0
    else
      match script[0]
      case Took(n) => if n == 0 then 0 else n + Room(script[1..], 0)
      case WouldBlock(writable) => if spins + 1 > MAX_SPINS || !writable then 0 else Room(script[1..], spins + 1)
      case Interrupted => Room(script[1..], spins)
      case Broken => 0
  }

  function Min(a: nat, b: nat): nat { if a <= b then a else b }

  /**
   The loop. `wire` is what the peer received: always a prefix of the data, all of it exactly
   when the call succeeds, and that is exactly when the socket has room for it.
   */
  method SendAll(script: seq<Send>, data: string) returns (ok: bool, ghost wire: string)
    ensures ok <==> |data| <= Room(script, 0)
    ensures wire == data[..Min(|data|, Room(script, 0))]
  {
    var sent, spins, rest := 0, 0, script;
    wire := "";
    while sent < |data|
      invariant 0 <= sent <= |data| && wire == data[..sent]
      invariant Room(script, 0) == sent + Room(rest, spins) || (sent == |data| && Room(script, 0) >= sent)
      decreases |rest|, |data| - sent
    {
      if rest == [] { return false, wire; }
      var r := rest[0];
      rest := rest[1..];
      match r {
        case Took(n) =>
          if n == 0 { return false, wire; }
          var k := Min(n, |data| - sent);
          wire := wire + data[sent..sent + k];
          sent := sent + k;
          spins := 0;
        case WouldBlock(writable) =>
          spins := spins + 1;
          if spins > MAX_SPINS || !writable { return false, wire; }
        case Interrupted =>
        case Broken => return false, wire;
      }
    }
    ok := true;
  }

  /** A patient peer: no error, never more than the allowed number of refusals in a row. */
  predicate Patient(script: seq<Send>, spins: nat) {
    script == [] ||
    match script[0]
    case Took(n) => n > 0 && Patient(script[1..], 0)
    case WouldBlock(writable) => writable && spins + 1 <= MAX_SPINS && Patient(script[1..], spins + 1)
    case Interrupted => Patient(script[1..], spins)
    case Broken => false
  }

  function Taken(script: seq<Send>): nat {
    if script == [] then 0 else (if script[0].Took? then script[0].n else 0) + Taken(script[1..])
  }

  /** With a patient peer only the number of bytes it takes matters, not how they are split or delayed. */
  lemma {:induction false} PatientRoom(script: seq<Send>, spins: nat)
    requires Patient(script, spins)
    ensures Room(script, spins) == Taken(script)
  {
    if script != [] {
      match script[0]
      case Took(_) => PatientRoom(script[1..], 0);
      case WouldBlock(_) => PatientRoom(script[1..], spins + 1);
      case Interrupted => PatientRoom(script[1..], spins);
      case Broken => assert false;
    }
  }

  /** It gives up at the first result that is not patient, whatever would come after: an error, a socket that takes nothing or does not become writable, or one refusal too many in a row. */
  lemma {:induction false} GivesUp(front: seq<Send>, bad: Send, after: seq<Send>, spins: nat)
    requires Patient(front, spins) && !Patient(front + [bad], spins)
    ensures Room(front + [bad] + after, spins) == Taken(front)
    decreases |front|
  {
    var script := front + [bad] + after;
    if front == [] {
      assert script[0] == bad && (front + [bad])[0] == bad && (front + [bad])[1..] == [];
    } else {
      var more := front[1..];
      assert script[0] == front[0] && script[1..] == more + [bad] + after;
      assert (front + [bad])[0] == front[0] && (front + [bad])[1..] == more + [bad];
      match front[0]
      case Took(_) => GivesUp(more, bad, after, 0);
      case WouldBlock(_) => GivesUp(more, bad, after, spins + 1);
      case Interrupted => GivesUp(more, bad, after, spins);
    }
  }
}
