/**
 Header blocks: where one ends (`find_header_end`) and how its field lines are read.
 Requests and responses share both, except that a request folds a repeated field
 into one value and a response keeps the last one.
 */
module Head {
  import opened Text

  const CRLFCRLF := "\r\n\r\n"
  const LFLF := "\n\n"

  /** `find_header_end`: any CRLFCRLF in the buffer is preferred to any LFLF. */
  function FindHeaderEnd(buf: string): (r: Option<nat>)
    ensures r.Some? ==> 2 <= r.value <= |buf| && buf[r.value - 1] == '\n'
  {
    match Find(buf, CRLFCRLF, 0)
    case Some(p) => assert buf[p..p + 4][3] == '\n'; Some(p + 4)
    case None =>
      match Find(buf, LFLF, 0)
      case Some(p) => assert buf[p..p + 2][1] == '\n'; Some(p + 2)
      case None => None
  }

  /** The first CRLFCRLF, if there is one, ends before any LFLF does. */
  predicate Unambiguous(s: string) {
    var p, q := Find(s, CRLFCRLF, 0), Find(s, LFLF, 0);
    p.Some? && q.Some? ==> p.value + 4 < q.value + 2
  }

  /** What a reader who has only received `s[..k]` sees of an unambiguous stream. */
  lemma HeaderEndOfPrefix(s: string, k: nat)
    requires Unambiguous(s) && k <= |s|
    ensures FindHeaderEnd(s[..k]) ==
            if FindHeaderEnd(s).Some? && FindHeaderEnd(s).value <= k then FindHeaderEnd(s) else None
  {
    PrefixFind(s, CRLFCRLF, k);
    PrefixFind(s, LFLF, k);
  }

  lemma UnambiguousPrefix(s: string, k: nat)
    requires Unambiguous(s) && k <= |s|
    ensures Unambiguous(s[..k])
  {
    PrefixFind(s, CRLFCRLF, k);
    PrefixFind(s, LFLF, k);
  }

  /** The end of head reported early, on whatever prefix has arrived, is final. */
  predicate CutIndependent(s: string) {
    forall k: nat :: k <= |s| && FindHeaderEnd(s[..k]).Some? ==> FindHeaderEnd(s[..k]) == FindHeaderEnd(s)
  }

  /**
   Segmentation independence of `find_header_end` is false in general: the bare-LF
   tolerance breaks it exactly on streams where an LFLF ends before the first CRLFCRLF.
   */
  lemma CutIndependentIffUnambiguous(s: string)
    ensures CutIndependent(s) <==> Unambiguous(s)
  {
    if Unambiguous(s) {
      forall k: nat | k <= |s| && FindHeaderEnd(s[..k]).Some?
        ensures FindHeaderEnd(s[..k]) == FindHeaderEnd(s)
      {
        HeaderEndOfPrefix(s, k);
      }
    } else {
      var p, q := Find(s, CRLFCRLF, 0).value, Find(s, LFLF, 0).value;
      assert q + 2 != p + 4 by { assert s[p..p + 4][2] == '\r' && s[q..q + 2][0] == '\n'; }
      PrefixFind(s, CRLFCRLF, q + 2);
      PrefixFind(s, LFLF, q + 2);
      assert FindHeaderEnd(s[..q + 2]) == Some(q + 2);
    }
  }

  /** The shortest stream whose end of head depends on the cut; module BareLf has streams of real requests. */
  lemma BareLfHeadDependsOnCut()
    ensures FindHeaderEnd("\n\n") == Some(2) && FindHeaderEnd("\n\n" + "\r\n\r\n") == Some(6)
  {
    hide Find;
    var a, s := "\n\n", "\n\n" + "\r\n\r\n";
    assert a[0..2] == LFLF && MatchAt(a, LFLF, 0);
    FindIs(a, LFLF, 0, 0);
    assert s[2..6] == CRLFCRLF && MatchAt(s, CRLFCRLF, 2);
    assert s[0..4][0] == '\n' && s[1..5][0] == '\n';
    FindIs(s, CRLFCRLF, 0, 2);
  }

  /** Once a head is found, it is final under every continuation iff it was a CRLFCRLF that was found. */
  lemma FinalIffCrlf(b: string)
    requires FindHeaderEnd(b).Some?
    ensures (forall t: string :: FindHeaderEnd(b + t) == FindHeaderEnd(b)) <==> Contains(b, CRLFCRLF)
  {
    if Contains(b, CRLFCRLF) {
      forall t: string ensures FindHeaderEnd(b + t) == FindHeaderEnd(b) {
        FindExtend(b, t, CRLFCRLF, 0);
      }
    } else {
      var s := b + CRLFCRLF;
      assert s[|b|..|b| + 4] == CRLFCRLF && MatchAt(s, CRLFCRLF, |b|);
      var p := Find(s, CRLFCRLF, 0).value;
      if p + 4 <= |b| { MatchAtExtend(b, CRLFCRLF, CRLFCRLF, p); }
      assert FindHeaderEnd(s).value > |b|;
    }
  }

  // ------------------------------------------------------------- field lines

  type Fields = map<string, string>

  /** One `name: value` line; `None` when the line is skipped as junk. */
  function FieldOf(line: string): Option<(string, string)> {
    match Find(line, ":", 0)
    case None => None
    case Some(i) => MakeField(Trim(line[..i]), Trim(line[i + 1..]))
  }

  function MakeField(name: string, value: string): Option<(string, string)> {
    if name == "" then None else Some((ToLower(name), value))
  }

  /** Adds a field; `folding` says whether a repeat is joined or replaces the earlier value. */
  function AddField(h: Fields, name: string, value: string, folding: bool): Fields {
    if folding && name in h then h[name := h[name] + ", " + value] else h[name := value]
  }

  /** Reads field lines up to the first empty one. */
  function ReadFields(lines: seq<string>, h: Fields, folding: bool): Fields {
    if lines == [] || StripCr(lines[0]) == "" then h
    else
      match FieldOf(StripCr(lines[0]))
      case None => ReadFields(lines[1..], h, folding)
      case Some(f) => ReadFields(lines[1..], AddField(h, f.0, f.1, folding), folding)
  }

  /** The `std::getline` loop that fills a header map from what is left of the stream. */
  method ScanFields(text: string, folding: bool) returns (h: Fields)
    ensures h == ReadFields(Lines(text), map[], folding)
  {
    h := map[];
    var rest := text;
    while rest != ""
      invariant ReadFields(Lines(rest), h, folding) == ReadFields(Lines(text), map[], folding)
      decreases |rest|
    {
      var nl := Find(rest, "\n", 0);
      ghost var all := Lines(rest);
      var line;
      if nl.None? { line, rest := rest, ""; } else { line, rest := rest[..nl.value], rest[nl.value + 1..]; }
      assert all == [line] + Lines(rest);
      line := StripCr(line);
      if line == "" { return; }
      var f := FieldOf(line);
      if f.Some? { h := AddField(h, f.value.0, f.value.1, folding); }
      assert all[1..] == Lines(rest);
    }
  }

  // --------------------------------------------------------- printed headers

  /** A non-empty line without LF. */
  predicate PlainLine(l: string) { l != "" && NoNewline(l) }

  predicate PlainLines(ls: seq<string>) { forall i :: 0 <= i < |ls| ==> PlainLine(ls[i]) }

  /** The lines, each ended by CRLF, and the empty line that ends the head. */
  function Block(ls: seq<string>): (r: string)
    ensures |r| >= 2
  {
    if ls == [] then CRLF else ls[0] + CRLF + Block(ls[1..])
  }

  predicate CrLfCrLfAt(s: string, j: nat) {
    j + 4 <= |s| && s[j] == '\r' && s[j + 1] == '\n' && s[j + 2] == '\r' && s[j + 3] == '\n'
  }

  predicate LfLfAt(s: string, j: nat) { j + 2 <= |s| && s[j] == '\n' && s[j + 1] == '\n' }

  lemma TerminatorBytes(s: string, j: nat)
    ensures MatchAt(s, CRLFCRLF, j) <==> CrLfCrLfAt(s, j)
    ensures MatchAt(s, LFLF, j) <==> LfLfAt(s, j)
  {
    if j + 4 <= |s| { assert s[j..j + 4] == [s[j], s[j + 1], s[j + 2], s[j + 3]]; }
    if j + 2 <= |s| { assert s[j..j + 2] == [s[j], s[j + 1]]; }
  }

  /** No terminator of either kind ends strictly inside a printed head. */
  lemma {:induction false} NoEarlyTerminator(ls: seq<string>, x: string, j: nat)
    requires PlainLines(ls)
    ensures j + 4 < |Block(ls)| ==> !CrLfCrLfAt(Block(ls) + x, j)
    ensures j + 2 <= |Block(ls)| ==> !LfLfAt(Block(ls) + x, j)
  {
    if ls != [] {
      var l, s' := ls[0], Block(ls[1..]) + x;
      var d := |l| + 2;
      assert Block(ls) + x == l + CRLF + s';
      if j >= d {
        NoEarlyTerminator(ls[1..], x, j - d);
      } else {
        assert PlainLine(l);
        FirstByteOfBlock(ls[1..], x);
      }
    }
  }

  lemma FirstByteOfBlock(ls: seq<string>, x: string)
    requires PlainLines(ls)
    ensures Block(ls)[0] != '\n'
    ensures ls != [] ==> (Block(ls) + x)[1] != '\n'
  {
    if ls != [] { assert PlainLine(ls[0]); }
  }

  /** A printed head is found whole, whatever bytes follow it, and its end is unambiguous. */
  lemma BlockFound(ls: seq<string>, x: string)
    requires ls != [] && PlainLines(ls)
    ensures FindHeaderEnd(Block(ls) + x) == Some(|Block(ls)|)
    ensures Unambiguous(Block(ls) + x)
  {
    var s, k := Block(ls) + x, |Block(ls)| - 4;
    BlockEnd(ls);
    TerminatorBytes(s, k);
    forall j: nat | j < k ensures !MatchAt(s, CRLFCRLF, j) {
      NoEarlyTerminator(ls, x, j);
      TerminatorBytes(s, j);
    }
    FindIs(s, CRLFCRLF, 0, k);
    if Find(s, LFLF, 0).Some? {
      NoEarlyTerminator(ls, x, Find(s, LFLF, 0).value);
      TerminatorBytes(s, Find(s, LFLF, 0).value);
    }
  }

  lemma {:induction false} BlockEnd(ls: seq<string>)
    requires ls != []
    ensures |Block(ls)| >= 4 && CrLfCrLfAt(Block(ls), |Block(ls)| - 4)
  {
    if |ls| > 1 { BlockEnd(ls[1..]); }
  }

  function WithCr(ls: seq<string>): seq<string> {
    if ls == [] then ["\r"] else [ls[0] + "\r"] + WithCr(ls[1..])
  }

  lemma {:induction false} LinesOfBlock(ls: seq<string>)
    requires forall i :: 0 <= i < |ls| ==> NoNewline(ls[i])
    ensures Lines(Block(ls)) == WithCr(ls)
  {
    if ls == [] {
      assert Block(ls) == "\r" + "\n" + "";
      LinesCons("\r", "");
      assert Lines("") == [];
    } else {
      assert Block(ls) == (ls[0] + "\r") + "\n" + Block(ls[1..]);
      LinesCons(ls[0] + "\r", Block(ls[1..]));
      LinesOfBlock(ls[1..]);
    }
  }

  datatype Field = Field(name: string, value: string)

  predicate PlainName(n: string) {
    n != "" && Trimmed(n) && NoNewline(n) && (forall i :: 0 <= i < |n| ==> n[i] != ':')
  }

  predicate PlainValue(v: string) { Trimmed(v) && NoNewline(v) }

  predicate PlainFields(fs: seq<Field>) {
    forall i :: 0 <= i < |fs| ==> PlainName(fs[i].name) && PlainValue(fs[i].value)
  }

  function FieldLine(f: Field): string { f.name + ": " + f.value }

  function FieldLines(fs: seq<Field>): (r: seq<string>)
    ensures |r| == |fs| && forall i :: 0 <= i < |fs| ==> r[i] == FieldLine(fs[i])
  {
    if fs == [] then [] else [FieldLine(fs[0])] + FieldLines(fs[1..])
  }

  lemma FieldLineParses(f: Field)
    requires PlainName(f.name) && PlainValue(f.value)
    ensures FieldOf(FieldLine(f)) == Some((ToLower(f.name), f.value))
  {
    FieldLineColon(f);
    FieldLineParts(f);
  }

  lemma FieldLineColon(f: Field)
    requires PlainName(f.name)
    ensures Find(FieldLine(f), ":", 0) == Some(|f.name|)
  {
    var l, i := FieldLine(f), |f.name|;
    assert l[i] == ':';
    FindByte(l, ':', 0, i);
  }

  lemma FieldLineParts(f: Field)
    requires PlainName(f.name) && PlainValue(f.value)
    ensures Trim(FieldLine(f)[..|f.name|]) == f.name
    ensures Trim(FieldLine(f)[|f.name| + 1..]) == f.value
  {
    var l, i := FieldLine(f), |f.name|;
    assert l[..i] == f.name;
    assert l[i + 1..] == " " + f.value;
    TrimTrimmed(f.name);
    TrimTrimmed(f.value);
  }

  lemma FieldLinePlain(f: Field)
    requires PlainName(f.name) && PlainValue(f.value)
    ensures PlainLine(FieldLine(f))
  {
  }

  lemma StripAddedCr(line: string)
    ensures StripCr(line + "\r") == line
  {
  }

  lemma ReadFieldsCons(f: Field, ls: seq<string>, h: Fields, folding: bool)
    requires PlainName(f.name) && PlainValue(f.value)
    ensures ReadFields([FieldLine(f) + "\r"] + ls, h, folding) ==
            ReadFields(ls, AddField(h, ToLower(f.name), f.value, folding), folding)
  {
    hide FieldOf, AddField, StripCr, PlainName, PlainValue, ToLower;
    FieldLineParses(f);
    assert FieldLine(f) != "";
    StripAddedCr(FieldLine(f));
    hide FieldLine;
    assert ([FieldLine(f) + "\r"] + ls)[1..] == ls;
  }

  /** Reading the first of some printed fields. */
  lemma ReadPrintedField(fs: seq<Field>, h: Fields, folding: bool)
    requires fs != [] && PlainFields(fs)
    ensures ReadFields(WithCr(FieldLines(fs)), h, folding) ==
            ReadFields(WithCr(FieldLines(fs[1..])), AddField(h, ToLower(fs[0].name), fs[0].value, folding), folding)
  {
    assert FieldLines(fs)[1..] == FieldLines(fs[1..]);
    ReadFieldsCons(fs[0], WithCr(FieldLines(fs[1..])), h, folding);
  }

  // --------------------------------------------- two heads, one reading

  lemma HasLf(a: string, j: nat)
    requires j < |a| && a[j] == '\n'
    ensures Find(a, "\n", 0).Some? && Find(a, "\n", 0).value <= j
  {
    hide Find;
    assert a[j..j + 1] == [a[j]];
    assert MatchAt(a, "\n", j);
  }

  lemma LinesUnfold(a: string)
    requires Find(a, "\n", 0).Some? && Find(a, "\n", 0).value < |a|
    ensures Lines(a) == [a[..Find(a, "\n", 0).value]] + Lines(a[Find(a, "\n", 0).value + 1..])
  {
    hide Find, MatchAt;
  }

  /** The first line of a text that has an LF. */
  lemma FirstLineOf(a: string, j: nat)
    requires j < |a| && a[j] == '\n'
    ensures Find(a, "\n", 0).Some? && Find(a, "\n", 0).value <= j
    ensures Lines(a) == [a[..Find(a, "\n", 0).value]] + Lines(a[Find(a, "\n", 0).value + 1..])
  {
    hide Find, MatchAt, Lines;
    HasLf(a, j);
    LinesUnfold(a);
  }

  /** Lines of a text that continues one ended by LF. */
  lemma {:induction false} LinesAppend(a: string, y: string)
    requires a != "" && a[|a| - 1] == '\n'
    ensures Lines(a + y) == Lines(a) + Lines(y)
    decreases |a|
  {
    hide Find, Lines;
    FirstLineOf(a, |a| - 1);
    FirstLineOf(a + y, |a| - 1);
    FindExtend(a, y, "\n", 0);
    var i := Find(a, "\n", 0).value;
    var rest := a[i + 1..];
    assert (a + y)[..i] == a[..i] && (a + y)[i + 1..] == rest + y;
    if rest == "" {
      NoLines();
      assert rest + y == y;
    } else {
      LinesAppend(rest, y);
    }
  }

  lemma NoLines()
    ensures Lines("") == []
  {
  }

  /** A text ended by LFLF has, after its first line, an empty one. */
  lemma {:induction false} EndsEmpty(a: string)
    requires |a| >= 2 && a[|a| - 1] == '\n' && a[|a| - 2] == '\n'
    ensures |Lines(a)| >= 2 && Lines(a)[|Lines(a)| - 1] == ""
    decreases |a|
  {
    hide Find, Lines;
    FirstLineOf(a, |a| - 2);
    var rest := a[Find(a, "\n", 0).value + 1..];
    if |rest| >= 2 {
      EndsEmpty(rest);
    } else {
      assert rest == "\n";
      OneEmptyLine();
    }
  }

  lemma OneEmptyLine()
    ensures Lines("\n") == [""]
  {
    assert "\n" == "" + "\n" + "";
    LinesCons("", "");
    assert Lines("") == [];
  }

  /** Field lines are read up to the first empty one. */
  lemma {:induction false} ReadStops(ls: seq<string>, more: seq<string>, i: nat, h: Fields, folding: bool)
    requires i < |ls| && ls[i] == ""
    ensures ReadFields(ls + more, h, folding) == ReadFields(ls, h, folding)
    decreases i
  {
    hide FieldOf, AddField;
    assert (ls + more)[0] == ls[0] && (ls + more)[1..] == ls[1..] + more;
    if i > 0 && StripCr(ls[0]) != "" {
      var f := FieldOf(StripCr(ls[0]));
      ReadStops(ls[1..], more, i - 1, if f.Some? then AddField(h, f.value.0, f.value.1, folding) else h, folding);
    }
  }

  /** Bytes after an LFLF are no part of a head: what is read ends with its empty line, however far it is taken to reach. */
  lemma TwoReadings(a: string, y: string, folding: bool)
    requires |a| >= 2 && a[|a| - 1] == '\n' && a[|a| - 2] == '\n'
    ensures Lines(a) != [] && Lines(a + y) != [] && Lines(a + y)[0] == Lines(a)[0]
    ensures ReadFields(Lines(a + y)[1..], map[], folding) == ReadFields(Lines(a)[1..], map[], folding)
  {
    hide Lines, ReadFields;
    LinesAppend(a, y);
    EndsEmpty(a);
    var ls, more := Lines(a), Lines(y);
    assert (ls + more)[0] == ls[0] && (ls + more)[1..] == ls[1..] + more;
    ReadStops(ls[1..], more, |ls| - 2, map[], folding);
  }

  /** What a reader of `k` bytes of a stream finds: the CRLFCRLF if it has come, else the LFLF if it has. */
  lemma PrefixHead(s: string, k: nat)
    requires k <= |s|
    ensures var p, q := Find(s, CRLFCRLF, 0), Find(s, LFLF, 0);
            FindHeaderEnd(s[..k]) == if p.Some? && p.value + 4 <= k then Some(p.value + 4)
                                     else if q.Some? && q.value + 2 <= k then Some(q.value + 2) else None
  {
    hide Find, MatchAt;
    PrefixFind(s, CRLFCRLF, k);
    PrefixFind(s, LFLF, k);
  }

  /** Where the two heads of an ambiguous stream end. */
  lemma HeadsApart(s: string)
    requires !Unambiguous(s)
    ensures Find(s, CRLFCRLF, 0).Some? && Find(s, LFLF, 0).Some?
    ensures var early, h := Find(s, LFLF, 0).value + 2, Find(s, CRLFCRLF, 0).value + 4;
            early < h <= |s| && FindHeaderEnd(s) == Some(h) && s[early - 1] == '\n' && s[early - 2] == '\n'
  {
    hide Find, MatchAt;
    var p, q := Find(s, CRLFCRLF, 0).value, Find(s, LFLF, 0).value;
    TerminatorBytes(s, p);
    TerminatorBytes(s, q);
  }

  /** Once the head of the whole stream has arrived it is the one found. */
  lemma HeadWins(s: string, k: nat)
    requires FindHeaderEnd(s).Some? && FindHeaderEnd(s).value <= k <= |s|
    ensures FindHeaderEnd(s[..k]) == FindHeaderEnd(s)
  {
    PrefixHead(s, k);
  }

  /** A line that is no field, for want of a colon or of a name, is skipped, wherever it stands; an empty one ends the fields. */
  lemma {:induction false} JunkSkipped(ls: seq<string>, junk: string, more: seq<string>, h: Fields, folding: bool)
    requires forall i :: 0 <= i < |ls| ==> StripCr(ls[i]) != ""
    requires StripCr(junk) != "" && ((forall i :: 0 <= i < |StripCr(junk)| ==> StripCr(junk)[i] != ':') || StripCr(junk)[0] == ':')
    ensures ReadFields(ls + [junk] + more, h, folding) == ReadFields(ls + more, h, folding)
    ensures ReadFields(ls + [""] + more, h, folding) == ReadFields(ls, h, folding)
    decreases |ls|
  {
    hide FieldOf, StripCr, AddField;
    if ls == [] {
      NoField(StripCr(junk));
      EmptyStripped();
      assert (ls + [junk] + more)[0] == junk && (ls + [junk] + more)[1..] == more && ls + more == more;
      assert (ls + [""] + more)[0] == "";
    } else {
      var l := ls[1..];
      assert (ls + [junk] + more)[0] == ls[0] && (ls + [junk] + more)[1..] == l + [junk] + more;
      assert (ls + [""] + more)[0] == ls[0] && (ls + [""] + more)[1..] == l + [""] + more;
      assert (ls + more)[0] == ls[0] && (ls + more)[1..] == l + more;
      match FieldOf(StripCr(ls[0]))
      case None => JunkSkipped(l, junk, more, h, folding);
      case Some(f) => JunkSkipped(l, junk, more, AddField(h, f.0, f.1, folding), folding);
    }
  }

  lemma EmptyStripped()
    ensures StripCr("") == ""
  {
  }

  lemma NoField(line: string)
    requires line != "" && ((forall i :: 0 <= i < |line| ==> line[i] != ':') || line[0] == ':')
    ensures FieldOf(line) == None
  {
    hide Find;
    if line[0] == ':' {
      FindByte(line, ':', 0, 0);
      assert Trim(line[..0]) == "";
    } else {
      FindNoByte(line, ':', 0);
    }
  }
}
