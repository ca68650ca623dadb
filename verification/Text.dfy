/**
 Byte strings and the C and C++ library calls the proxy makes on them:
 `std::string::find`, `std::getline`, `tolower`, `strtol`, `atoi`, `std::to_string`.
 A byte is modelled by a `char`; case folding is the ASCII one of the C locale.
 */
module Text {

  datatype Option<+T> = None | Some(value: T)

  const CRLF := "\r\n"
  const LONG_MAX := 0x7fff_ffff_ffff_ffff
  const TWO64 := 0x1_0000_0000_0000_0000

  // ---------------------------------------------------------------- searching

  predicate MatchAt(s: string, pat: string, i: nat) {
    i + |pat| <= |s| && s[i..i + |pat|] == pat
  }

  /** `s.find(pat, from)`: the first match at or after `from`, or npos. */
  function Find(s: string, pat: string, from: nat): (r: Option<nat>)
    ensures r.Some? ==> from <= r.value && MatchAt(s, pat, r.value)
    ensures r.Some? ==> forall j: nat :: from <= j < r.value ==> !MatchAt(s, pat, j)
    ensures r.None? ==> forall j: nat :: from <= j ==> !MatchAt(s, pat, j)
    decreases |s| - from
  {
    if from + |pat| > |s| then None
    else if s[from..from + |pat|] == pat then Some(from)
    else Find(s, pat, from + 1)
  }

  predicate Contains(s: string, pat: string) {
    Find(s, pat, 0).Some?
  }

  /** A match inside `s` is a match in every extension of `s`, and conversely. */
  lemma MatchAtExtend(s: string, t: string, pat: string, i: nat)
    requires i + |pat| <= |s|
    ensures MatchAt(s + t, pat, i) == MatchAt(s, pat, i)
  {
    assert (s + t)[i..i + |pat|] == s[i..i + |pat|];
  }

  /** Appending bytes never moves the first match. */
  lemma FindExtend(s: string, t: string, pat: string, from: nat)
    requires Find(s, pat, from).Some?
    ensures Find(s + t, pat, from) == Find(s, pat, from)
  {
    var i := Find(s, pat, from).value;
    MatchAtExtend(s, t, pat, i);
    forall j: nat | from <= j < i ensures !MatchAt(s + t, pat, j) {
      MatchAtExtend(s, t, pat, j);
    }
  }

  /** What a search sees of a prefix. */
  lemma PrefixFind(s: string, pat: string, k: nat)
    requires k <= |s|
    ensures Find(s[..k], pat, 0) ==
            if Find(s, pat, 0).Some? && Find(s, pat, 0).value + |pat| <= k then Find(s, pat, 0) else None
  {
    assert s == s[..k] + s[k..];
    if Find(s[..k], pat, 0).Some? {
      FindExtend(s[..k], s[k..], pat, 0);
    } else if Find(s, pat, 0).Some? && Find(s, pat, 0).value + |pat| <= k {
      MatchAtExtend(s[..k], s[k..], pat, Find(s, pat, 0).value);
    }
  }

  /** A match at `k` with none before it is what `Find` returns. */
  lemma FindIs(s: string, pat: string, from: nat, k: nat)
    requires from <= k && MatchAt(s, pat, k)
    requires forall j: nat :: from <= j < k ==> !MatchAt(s, pat, j)
    ensures Find(s, pat, from) == Some(k)
  {
  }

  /** `Find` for one byte. */
  lemma FindByte(s: string, c: char, from: nat, k: nat)
    requires from <= k < |s| && s[k] == c
    requires forall j: nat :: from <= j < k ==> s[j] != c
    ensures Find(s, [c], from) == Some(k)
  {
    forall j: nat | from <= j < k ensures !MatchAt(s, [c], j) {
      assert s[j..j + 1] == [s[j]];
    }
    assert s[k..k + 1] == [c];
    assert MatchAt(s, [c], k);
  }

  lemma FindNoByte(s: string, c: char, from: nat)
    requires forall j: nat :: from <= j < |s| ==> s[j] != c
    ensures Find(s, [c], from) == None
  {
    forall j: nat | from <= j ensures !MatchAt(s, [c], j) {
      if j + 1 <= |s| { assert s[j..j + 1] == [s[j]]; }
    }
  }

  /** Searching in a suffix is searching from an offset. */
  lemma {:induction false} FindDrop(s: string, pat: string, off: nat, from: nat)
    requires off <= |s|
    ensures Find(s[off..], pat, from).None? == Find(s, pat, off + from).None?
    ensures Find(s[off..], pat, from).Some? ==>
              Find(s, pat, off + from) == Some(off + Find(s[off..], pat, from).value)
    decreases |s| - from
  {
    if off + from + |pat| <= |s| {
      assert s[off..][from..from + |pat|] == s[off + from..off + from + |pat|];
      FindDrop(s, pat, off, from + 1);
    }
  }

  // ------------------------------------------------------------------- bytes

  function LowerChar(c: char): char {
    if 'A' <= c <= 'Z' then c - 'A' + 'a' else c
  }

  function ToLower(s: string): (r: string)
    ensures |r| == |s|
    ensures forall i :: 0 <= i < |s| ==> r[i] == LowerChar(s[i])
  {
    seq(|s|, i requires 0 <= i < |s| => LowerChar(s[i]))
  }

  /** The letters of the alphabet are folded, and no other byte. */
  lemma FoldsLetters(c: char)
    ensures ToLower("ABCDEFGHIJKLMNOPQRSTUVWXYZ") == "abcdefghijklmnopqrstuvwxyz"
    ensures c !in "ABCDEFGHIJKLMNOPQRSTUVWXYZ" ==> LowerChar(c) == c
  {
    var upper := "ABCDEFGHIJKLMNOPQRSTUVWXYZ";
    assert 'A' <= c <= 'Z' ==> upper[c as int - 'A' as int] == c;
  }

  lemma ToLowerTwice(s: string)
    ensures ToLower(ToLower(s)) == ToLower(s)
  {
  }

  lemma ToLowerConcat(s: string, t: string)
    ensures ToLower(s + t) == ToLower(s) + ToLower(t)
  {
  }

  predicate IsBlank(c: char) { c == ' ' || c == '\t' || c == '\r' || c == '\n' }

  /** `isspace` of the C locale. */
  predicate IsSpace(c: char) { IsBlank(c) || c == '\U{0B}' || c == '\U{0C}' }

  predicate IsDigit(c: char) { '0' <= c <= '9' }

  function TrimLeft(s: string): (r: string)
    ensures r != "" ==> !IsBlank(r[0])
    ensures |r| <= |s| && r == s[|s| - |r|..]
  {
    if s == "" || !IsBlank(s[0]) then s else TrimLeft(s[1..])
  }

  function TrimRight(s: string): (r: string)
    ensures r != "" ==> !IsBlank(r[|r| - 1])
    ensures r <= s
  {
    if s == "" || !IsBlank(s[|s| - 1]) then s else TrimRight(s[..|s| - 1])
  }

  function Trim(s: string): string { TrimRight(TrimLeft(s)) }

  /** Text with no blank at either end. */
  predicate Trimmed(s: string) {
    s == "" || (!IsBlank(s[0]) && !IsBlank(s[|s| - 1]))
  }

  lemma TrimTrimmed(s: string)
    requires Trimmed(s)
    ensures Trim(s) == s && Trim(" " + s) == s
  {
    assert (" " + s)[1..] == s;
    assert TrimLeft(s) == s;
    assert TrimLeft(" " + s) == TrimLeft(s);
  }

  predicate StartsWith(s: string, p: string) { p <= s }

  predicate EndsWith(s: string, p: string) { |p| <= |s| && s[|s| - |p|..] == p }

  predicate NoNewline(s: string) { forall i :: 0 <= i < |s| ==> s[i] != '\n' }

  // ------------------------------------------------------------------- lines

  /** The lines `std::getline` yields; an unterminated last line counts, an empty rest does not. */
  function Lines(s: string): (r: seq<string>)
    decreases |s|
  {
    if s == "" then []
    else
      match Find(s, "\n", 0)
      case None => [s]
      case Some(i) => [s[..i]] + Lines(s[i + 1..])
  }

  lemma LinesCons(line: string, rest: string)
    requires NoNewline(line)
    ensures Lines(line + "\n" + rest) == [line] + Lines(rest)
  {
    var s := line + "\n" + rest;
    FindByte(s, '\n', 0, |line|);
    assert s[..|line|] == line && s[|line| + 1..] == rest;
  }

  function StripCr(line: string): string {
    if line != "" && line[|line| - 1] == '\r' then line[..|line| - 1] else line
  }

  // ----------------------------------------------------------------- numbers

  /** The bytes a `const char*` consumer of `s.c_str()` sees: up to the first NUL. */
  function CStr(s: string): string {
    match Find(s, "\0", 0)
    case None => s
    case Some(i) => s[..i]
  }

  function SkipSpace(s: string, i: nat): (j: nat)
    requires i <= |s|
    ensures i <= j <= |s|
    decreases |s| - i
  {
    if i < |s| && IsSpace(s[i]) then SkipSpace(s, i + 1) else i
  }

  function DigitsEnd(s: string, i: nat): (j: nat)
    requires i <= |s|
    ensures i <= j <= |s|
    ensures forall k :: i <= k < j ==> IsDigit(s[k])
    decreases |s| - i
  {
    if i < |s| && IsDigit(s[i]) then DigitsEnd(s, i + 1) else i
  }

  predicate AllDigits(s: string) { forall i :: 0 <= i < |s| ==> IsDigit(s[i]) }

  function DigitsValue(s: string): nat
    requires AllDigits(s)
  {
    if s == "" then 0 else DigitsValue(s[..|s| - 1]) * 10 + (s[|s| - 1] as int - '0' as int)
  }

  datatype Strtol = Strtol(value: int, end: nat, overflow: bool)

  /** `strtol(s.c_str(), &end, 10)`: saturates, and leaves `end` at the start when there is no digit. */
  function StrtolOf(s: string): (r: Strtol)
    ensures r.end <= |CStr(s)|
  {
    var c := CStr(s);
    var i := SkipSpace(c, 0);
    var negative := i < |c| && c[i] == '-';
    var j := if i < |c| && (c[i] == '-' || c[i] == '+') then i + 1 else i;
    var e := DigitsEnd(c, j);
    if e == j then Strtol(0, 0, false)
    else
      var v: int := DigitsValue(c[j..e]);
      if negative then
        if v > LONG_MAX + 1 then Strtol(-LONG_MAX - 1, e, true) else Strtol(-v, e, false)
      else
        if v > LONG_MAX then Strtol(LONG_MAX, e, true) else Strtol(v, e, false)
  }

  /** True when `*end == '\0'` after `strtol`. */
  predicate StrtolConsumedAll(s: string) { StrtolOf(s).end == |CStr(s)| }

  function ToInt32(v: int): int { (v + 0x8000_0000) % 0x1_0000_0000 - 0x8000_0000 }

  /** `atoi`: `strtol` narrowed to a 32-bit `int`. */
  function Atoi(s: string): int { ToInt32(StrtolOf(s).value) }

  /** `std::to_string` of an unsigned value. */
  function Decimal(n: nat): (r: string)
    ensures r != "" && AllDigits(r)
    ensures DigitsValue(r) == n
  {
    var d := [('0' as int + n % 10) as char];
    if n < 10 then
      assert d[..|d| - 1] == "" && DigitsValue(d[..0]) == 0;
      d
    else
      var r := Decimal(n / 10) + d;
      assert r[..|r| - 1] == Decimal(n / 10);
      r
  }

  lemma DigitsEndAll(s: string, i: nat)
    requires i <= |s| && AllDigits(s)
    ensures DigitsEnd(s, i) == |s|
    decreases |s| - i
  {
  }

  /** Reading back a printed number. */
  lemma StrtolDecimal(n: nat)
    requires n <= LONG_MAX
    ensures StrtolOf(Decimal(n)).value == n && !StrtolOf(Decimal(n)).overflow
    ensures StrtolConsumedAll(Decimal(n))
  {
    var s := Decimal(n);
    FindNoByte(s, '\0', 0);
    assert IsDigit(s[0]);
    DigitsEndAll(s, 0);
    assert s[0..|s|] == s;
  }

  lemma AtoiDecimal(n: nat)
    requires n < 0x8000_0000
    ensures Atoi(Decimal(n)) == n
  {
    hide Decimal, StrtolOf;
    StrtolDecimal(n);
  }

  lemma NoSpaceInDigits(s: string)
    requires AllDigits(s)
    ensures forall i :: 0 <= i < |s| ==> s[i] != ' ' && s[i] != '\n'
  {
  }
}
