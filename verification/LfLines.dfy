/** Heads of two lines and an empty one, each ended by LF alone: how they are read, and what may follow them. */
module LfLines {
  import opened Text
  import opened Head

  predicate NoCr(s: string) { forall i :: 0 <= i < |s| ==> s[i] != '\r' }

  predicate PlainPair(k: string, l: string) { PlainLine(k) && PlainLine(l) && NoCr(k) && NoCr(l) }

  function LfHead(k: string, l: string): string { k + "\n" + (l + "\n" + ("" + "\n" + "")) }

  lemma LinesOfLfHead(k: string, l: string)
    requires PlainPair(k, l)
    ensures Lines(LfHead(k, l)) == [k, l, ""]
  {
    LinesCons(k, l + "\n" + ("" + "\n" + ""));
    LinesCons(l, "" + "\n" + "");
    LinesCons("", "");
    assert Lines("") == [];
  }

  lemma NoCrNoStrip(line: string)
    requires NoCr(line)
    ensures StripCr(line) == line
  {
  }

  /** What a second line holding a field is read as. */
  lemma ReadOne(line: string, name: string, value: string, folding: bool)
    requires line != "" && StripCr(line) == line && FieldOf(line) == Some((name, value))
    ensures ReadFields([line, ""], map[], folding) == map[name := value]
  {
    hide FieldOf;
    assert [line, ""][1..] == [""];
    assert StripCr("") == "";
  }

  /** No CR anywhere, and LFLF at the very end only, whatever follows. */
  lemma LfHeadBytes(k: string, l: string, x: string)
    requires PlainPair(k, l)
    ensures var s, n := LfHead(k, l) + x, |LfHead(k, l)|;
            && n >= 2 && LfLfAt(s, n - 2)
            && NoCrIn(s, n)
            && (forall j: nat :: j < n - 2 ==> !LfLfAt(s, j))
  {
    assert LfHead(k, l) == k + "\n" + l + "\n" + "\n";
    TwoLines(k, l, x);
  }

  lemma TwoLines(k: string, l: string, x: string)
    requires PlainPair(k, l)
    ensures var h := k + "\n" + l + "\n" + "\n";
            && LfLfAt(h + x, |h| - 2)
            && (forall j :: 0 <= j < |h| ==> (h + x)[j] != '\r')
            && (forall j: nat :: j < |h| - 2 ==> !LfLfAt(h + x, j))
  {
  }

  predicate NoCrIn(s: string, n: nat) { n <= |s| && forall j :: 0 <= j < n ==> s[j] != '\r' }

  /** A CRLFCRLF that follows a text without CR is the first. */
  lemma LaterCrlf(a: string, b: string, p: nat)
    requires NoCrIn(a + b, |a|) && MatchAt(b, CRLFCRLF, p) && forall j: nat :: j < p ==> !MatchAt(b, CRLFCRLF, j)
    ensures MatchAt(a + b, CRLFCRLF, |a| + p) && forall j: nat :: j < |a| + p ==> !MatchAt(a + b, CRLFCRLF, j)
  {
    hide MatchAt;
    TerminatorBytes(b, p);
    TerminatorBytes(a + b, |a| + p);
    forall j: nat | j < |a| + p ensures !MatchAt(a + b, CRLFCRLF, j) {
      TerminatorBytes(a + b, j);
      if j >= |a| { TerminatorBytes(b, j - |a|); }
    }
  }

  /** Alone it is a head, found whole. */
  lemma FoundAlone(k: string, l: string)
    requires PlainPair(k, l)
    ensures FindHeaderEnd(LfHead(k, l)) == Some(|LfHead(k, l)|)
  {
    hide LfHead, Find, MatchAt, PlainPair;
    var s, n := LfHead(k, l), |LfHead(k, l)|;
    assert s + "" == s;
    LfHeadBytes(k, l, "");
    TerminatorBytes(s, n - 2);
    forall j: nat | j < n - 2 ensures !MatchAt(s, LFLF, j) { TerminatorBytes(s, j); }
    FindIs(s, LFLF, 0, n - 2);
    if Find(s, CRLFCRLF, 0).Some? { TerminatorBytes(s, Find(s, CRLFCRLF, 0).value); }
  }

  /** Text that holds one CRLFCRLF, at its end. */
  predicate EndsOnce(b: string) { Find(b, CRLFCRLF, 0).Some? && Find(b, CRLFCRLF, 0).value + 4 == |b| }

  /** Followed by such a text it is ambiguous: the one head ends early, the other at the end of all. */
  lemma Ambiguous(k: string, l: string, b: string)
    requires PlainPair(k, l) && EndsOnce(b)
    ensures var s := LfHead(k, l) + b;
            && !Unambiguous(s) && FindHeaderEnd(s) == Some(|s|)
            && Find(s, LFLF, 0) == Some(|LfHead(k, l)| - 2) && Find(s, CRLFCRLF, 0) == Some(|s| - 4)
  {
    hide LfHead, Find, MatchAt, PlainPair;
    var s, n, p := LfHead(k, l) + b, |LfHead(k, l)|, Find(b, CRLFCRLF, 0).value;
    LfHeadBytes(k, l, b);
    TerminatorBytes(s, n - 2);
    forall j: nat | j < n - 2 ensures !MatchAt(s, LFLF, j) { TerminatorBytes(s, j); }
    FindIs(s, LFLF, 0, n - 2);
    LaterCrlf(LfHead(k, l), b, p);
    FindIs(s, CRLFCRLF, 0, n + p);
  }
}
