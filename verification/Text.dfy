/** Byte strings as the server handles them: `std::string_view::find`, CRLF lines,
    decimal numerals and splitting at a separator. */
module Text {

  const NPOS := -1
  const CRLF := "\r\n"
  const CRLFCRLF := "\r\n\r\n"

  datatype Option<+T> = None | Some(value: T)

  lemma Assoc(a: string, b: string, c: string)
    ensures a + (b + c) == (a + b) + c
  {
  }

  lemma RightUnit(a: string)
    ensures a + "" == a
  {
  }

  lemma SliceOfSlice(s: string, a: int, b: int, i: int, j: int)
    requires 0 <= a <= b <= |s| && 0 <= i <= j <= b - a
    ensures s[a..b][i..j] == s[a + i..a + j]
  {
    forall k | 0 <= k < j - i ensures s[a..b][i..j][k] == s[a + i..a + j][k] {
      assert s[a..b][i..j][k] == s[a..b][i + k] == s[a + i + k];
    }
  }

  // ---- Searching ----

  predicate MatchesAt(s: string, pat: string, i: int) {
    0 <= i && i + |pat| <= |s| && s[i..i + |pat|] == pat
  }

  /** `s.find(pat, from)`: the first match at or after `from`, or NPOS. */
  function Find(s: string, pat: string, from: nat): (r: int)
    requires from <= |s|
    ensures r == NPOS || (from <= r && MatchesAt(s, pat, r))
    ensures forall j :: from <= j && (r == NPOS || j < r) ==> !MatchesAt(s, pat, j)
    decreases |s| - from
  {
    if MatchesAt(s, pat, from) then from
    else if from < |s| then Find(s, pat, from + 1)
    else NPOS
  }

  /** The position `Find` returns is determined by its meaning. */
  lemma FindIs(s: string, pat: string, from: nat, r: int)
    requires from <= r && MatchesAt(s, pat, r)
    requires forall j :: from <= j < r ==> !MatchesAt(s, pat, j)
    ensures from <= |s| && Find(s, pat, from) == r
  {
  }

  /** A match inside a prefix is a match in the whole, and the other way round. */
  lemma MatchInPrefix(s: string, t: string, pat: string, i: int)
    requires i + |pat| <= |s|
    ensures MatchesAt(s + t, pat, i) <==> MatchesAt(s, pat, i)
  {
    if 0 <= i {
      assert (s + t)[i..i + |pat|] == s[i..i + |pat|];
    }
  }

  lemma MatchInSuffix(s: string, t: string, pat: string, i: int)
    requires 0 <= i
    ensures MatchesAt(s + t, pat, |s| + i) <==> MatchesAt(t, pat, i)
  {
    if i + |pat| <= |t| {
      assert (s + t)[|s| + i..|s| + i + |pat|] == t[i..i + |pat|];
    }
  }

  /** Finding in a prefix that holds the match ignores whatever follows it. */
  lemma FindIgnoresTail(s: string, t: string, pat: string, from: nat)
    requires from <= |s| && Find(s, pat, from) != NPOS
    ensures Find(s + t, pat, from) == Find(s, pat, from)
  {
    var r := Find(s, pat, from);
    MatchInPrefix(s, t, pat, r);
    forall j | from <= j < r ensures !MatchesAt(s + t, pat, j) {
      MatchInPrefix(s, t, pat, j);
    }
    FindIs(s + t, pat, from, r);
  }

  /** Searching from `from` is searching the rest of the text. */
  lemma FindShift(s: string, pat: string, from: nat)
    requires from <= |s|
    ensures Find(s, pat, from) == var r := Find(s[from..], pat, 0); if r == NPOS then NPOS else from + r
  {
    var rest := s[from..];
    assert s == s[..from] + rest;
    forall j | 0 <= j ensures MatchesAt(s, pat, from + j) <==> MatchesAt(rest, pat, j) {
      MatchInSuffix(s[..from], rest, pat, j);
    }
    var r := Find(rest, pat, 0);
    forall j | from <= j ensures MatchesAt(s, pat, j) <==> MatchesAt(rest, pat, j - from) {
      assert MatchesAt(s, pat, from + (j - from)) <==> MatchesAt(rest, pat, j - from);
    }
    if r != NPOS {
      FindIs(s, pat, from, from + r);
    }
  }

  /** A one-character pattern is found exactly where the character stands. */
  lemma MatchesChar(s: string, c: char, i: int)
    ensures MatchesAt(s, [c], i) <==> 0 <= i < |s| && s[i] == c
  {
    if 0 <= i < |s| {
      assert s[i..i + 1] == [s[i]];
    }
  }

  lemma FindChar(pre: string, c: char, rest: string)
    requires c !in pre
    ensures Find(pre + [c] + rest, [c], 0) == |pre|
  {
    var s := pre + [c] + rest;
    MatchesChar(s, c, |pre|);
    forall j | 0 <= j < |pre| ensures !MatchesAt(s, [c], j) {
      MatchesChar(s, c, j);
      assert s[j] == pre[j];
    }
    FindIs(s, [c], 0, |pre|);
  }

  // ---- CRLF lines ----

  /** A text that can stand on one line. */
  ghost predicate OneLine(s: string) {
    forall j :: !MatchesAt(s, CRLF, j)
  }

  lemma MatchesCrlf(s: string, i: int)
    ensures MatchesAt(s, CRLF, i) <==> 0 <= i < |s| - 1 && s[i] == '\r' && s[i + 1] == '\n'
  {
    if 0 <= i < |s| - 1 {
      assert s[i..i + 2] == [s[i], s[i + 1]];
    }
  }

  /** The line ends at its own terminator, whatever comes after. */
  lemma FirstCrlf(line: string, rest: string)
    requires OneLine(line)
    ensures Find(line + CRLF + rest, CRLF, 0) == |line|
  {
    var s := line + CRLF + rest;
    MatchesCrlf(s, |line|);
    forall j | 0 <= j < |line| ensures !MatchesAt(s, CRLF, j) {
      MatchesCrlf(s, j);
      MatchesCrlf(line, j);
    }
    FindIs(s, CRLF, 0, |line|);
  }

  /** Each line followed by CRLF. */
  function JoinLines(lines: seq<string>): string {
    if lines == [] then "" else lines[0] + CRLF + JoinLines(lines[1..])
  }

  lemma JoinLinesAppend(a: seq<string>, b: seq<string>)
    ensures JoinLines(a + b) == JoinLines(a) + JoinLines(b)
  {
    if a == [] {
      assert a + b == b;
    } else {
      assert (a + b)[1..] == a[1..] + b;
      JoinLinesAppend(a[1..], b);
    }
  }

  ghost predicate HeaderLines(lines: seq<string>) {
    forall l :: l in lines ==> l != "" && OneLine(l)
  }

  lemma LinesThenTail(line: string, more: string, tail: string)
    ensures (line + CRLF + more) + CRLF + tail == line + CRLF + (more + CRLF + tail)
  {
    Assoc(line + CRLF, more, CRLF + tail);
    Assoc(line + CRLF + more, CRLF, tail);
    Assoc(more, CRLF, tail);
  }

  lemma LastLineEnd(line: string, tail: string)
    requires OneLine(line)
    ensures Find(line + CRLF + ("" + CRLF + tail), CRLFCRLF, 0) == |line|
  {
    var rest := "" + CRLF + tail;
    var s := line + CRLF + rest;
    assert s[|line|..|line| + 4] == CRLFCRLF;
    forall j | 0 <= j < |line| ensures !MatchesAt(s, CRLFCRLF, j) {
      NoBlockEndInLine(line, rest, j);
    }
    FindIs(s, CRLFCRLF, 0, |line|);
  }

  lemma NoEarlierEnd(line: string, rest: string, k: nat, j: nat)
    requires OneLine(line) && !MatchesAt(rest, CRLF, 0) && Find(rest, CRLFCRLF, 0) == k
    requires j < |line| + 2 + k
    ensures !MatchesAt(line + CRLF + rest, CRLFCRLF, j)
  {
    if j <= |line| + 1 {
      NoBlockEndInLine(line, rest, j);
    } else {
      hide MatchesAt;
      var i := j - |line| - 2;
      assert !MatchesAt(rest, CRLFCRLF, i);
      MatchInSuffix(line + CRLF, rest, CRLFCRLF, i);
    }
  }

  lemma LineBeforeBlock(line: string, rest: string, k: nat)
    requires OneLine(line) && !MatchesAt(rest, CRLF, 0) && Find(rest, CRLFCRLF, 0) == k
    ensures Find(line + CRLF + rest, CRLFCRLF, 0) == |line| + 2 + k
  {
    hide MatchesAt, OneLine;
    var s := line + CRLF + rest;
    MatchInSuffix(line + CRLF, rest, CRLFCRLF, k);
    forall j | 0 <= j < |line| + 2 + k ensures !MatchesAt(s, CRLFCRLF, j) {
      NoEarlierEnd(line, rest, k, j);
    }
    FindIs(s, CRLFCRLF, 0, |line| + 2 + k);
  }

  /** A block of non-empty lines closed by an empty one has its first CRLFCRLF at
      the closing empty line, whatever follows. */
  lemma {:induction false} BlockEnd(lines: seq<string>, tail: string)
    requires lines != [] && HeaderLines(lines)
    ensures |JoinLines(lines)| >= 3
    ensures Find(JoinLines(lines) + CRLF + tail, CRLFCRLF, 0) == |JoinLines(lines)| - 2
  {
    var line, more := lines[0], lines[1..];
    assert line in lines;
    LinesThenTail(line, JoinLines(more), tail);
    if more == [] {
      LastLineEnd(line, tail);
    } else {
      assert forall l :: l in more ==> l in lines;
      BlockEnd(more, tail);
      BlockStartsWithText(more, tail);
      LineBeforeBlock(line, JoinLines(more) + CRLF + tail, |JoinLines(more)| - 2);
    }
  }

  lemma MatchesBlockEnd(s: string, i: int)
    ensures MatchesAt(s, CRLFCRLF, i) ==> MatchesAt(s, CRLF, i) && MatchesAt(s, CRLF, i + 2)
  {
    if MatchesAt(s, CRLFCRLF, i) {
      assert s[i..i + 2] == s[i..i + 4][..2] && s[i + 2..i + 4] == s[i..i + 4][2..];
    }
  }

  lemma NoBlockEndInLine(line: string, rest: string, j: nat)
    requires OneLine(line) && j <= |line| + 1
    requires j == |line| ==> !MatchesAt(rest, CRLF, 0)
    ensures !MatchesAt(line + CRLF + rest, CRLFCRLF, j)
  {
    var s := line + CRLF + rest;
    MatchesBlockEnd(s, j);
    FirstCrlf(line, rest);
    if j == |line| {
      MatchInSuffix(line + CRLF, rest, CRLF, 0);
    } else if j == |line| + 1 {
      MatchesCrlf(s, j);
    }
  }

  lemma BlockStartsWithText(lines: seq<string>, tail: string)
    requires lines != [] && HeaderLines(lines)
    ensures !MatchesAt(JoinLines(lines) + CRLF + tail, CRLF, 0)
  {
    var rest := JoinLines(lines[1..]) + CRLF + tail;
    assert JoinLines(lines) + CRLF + tail == lines[0] + CRLF + rest;
    assert lines[0] in lines;
    FirstCrlf(lines[0], rest);
  }

  // ---- Decimal numerals ----

  predicate IsDigit(c: char) { '0' <= c <= '9' }

  function DigitValue(c: char): nat
    requires IsDigit(c)
  {
    c as int - '0' as int
  }

  predicate AllDigits(s: string) { forall i :: 0 <= i < |s| ==> IsDigit(s[i]) }

  /** The number a string of digits denotes, leading zeros allowed. */
  function Value(s: string): nat
    requires AllDigits(s)
  {
    if s == "" then 0 else 10 * Value(s[..|s| - 1]) + DigitValue(s[|s| - 1])
  }

  /** `std::to_string` of a non-negative integer. */
  function Decimal(n: nat): (s: string)
    ensures s != "" && AllDigits(s) && Value(s) == n
  {
    var last := [(n % 10 + '0' as int) as char];
    if n < 10 then
      assert Value(last[..0]) == 0;
      last
    else
      var s := Decimal(n / 10) + last;
      assert s[..|s| - 1] == Decimal(n / 10);
      s
  }

  const DIGITS := "0123456789"
  const SMALL := "abcdefghijklmnopqrstuvwxyz"
  const CAPITALS := "ABCDEFGHIJKLMNOPQRSTUVWXYZ"

  /** A digit counts by its place among the ten, and each digit before it ten times more. */
  lemma PlaceValue(s: string, i: nat)
    requires AllDigits(s) && i < 10
    ensures AllDigits(s + [DIGITS[i]]) && Value(s + [DIGITS[i]]) == 10 * Value(s) + i && Value("") == 0
  {
    assert (s + [DIGITS[i]])[..|s|] == s;
  }

  lemma DigitsAre(c: char)
    ensures IsDigit(c) <==> c in DIGITS
  {
    if IsDigit(c) {
      assert DIGITS[DigitValue(c)] == c;
    }
  }

  lemma SmallAre(c: char)
    ensures 'a' <= c <= 'z' <==> c in SMALL
  {
    if 'a' <= c <= 'z' {
      assert SMALL[c as int - 'a' as int] == c;
    }
  }

  lemma CapitalsAre(c: char)
    ensures 'A' <= c <= 'Z' <==> c in CAPITALS
  {
    if 'A' <= c <= 'Z' {
      assert CAPITALS[c as int - 'A' as int] == c;
    }
  }

  /** Numbers are printed without leading zeros. */
  lemma {:induction false} DecimalIsShortest(n: nat)
    ensures Decimal(0) == "0" && (n > 0 ==> Decimal(n)[0] != '0')
  {
    if n >= 10 {
      DecimalIsShortest(n / 10);
      assert Decimal(n)[0] == Decimal(n / 10)[0];
    }
  }

  lemma DigitsAreOneLine(s: string)
    requires AllDigits(s)
    ensures OneLine(s) && '-' !in s && '/' !in s
  {
    forall j ensures !MatchesAt(s, CRLF, j) {
      MatchesCrlf(s, j);
    }
  }

  // ---- Splitting at a separator ----

  /** The pieces of `s` between occurrences of `c`; always at least one. */
  function Split(s: string, c: char): (parts: seq<string>)
    ensures parts != []
  {
    var i := Find(s, [c], 0);
    if i == NPOS then [s] else [s[..i]] + Split(s[i + 1..], c)
  }

  lemma SplitNone(s: string, c: char)
    requires c !in s
    ensures Split(s, c) == [s]
  {
    var i := Find(s, [c], 0);
    if i != NPOS {
      MatchesChar(s, c, i);
    }
  }

  lemma SplitFirst(pre: string, c: char, rest: string)
    requires c !in pre
    ensures Split(pre + [c] + rest, c) == [pre] + Split(rest, c)
  {
    FindChar(pre, c, rest);
    var s := pre + [c] + rest;
    assert s[..|pre|] == pre && s[|pre| + 1..] == rest;
  }

  /** No piece contains the separator. */
  lemma {:induction false} SplitPieces(s: string, c: char)
    ensures forall p :: p in Split(s, c) ==> c !in p
    decreases |s|
  {
    var i := Find(s, [c], 0);
    var head := if i == NPOS then s else s[..i];
    if c in head {
      var j :| 0 <= j < |head| && head[j] == c;
      MatchesChar(s, c, j);
      assert false;
    }
    if i != NPOS {
      SplitPieces(s[i + 1..], c);
    }
  }

  /** Splitting a concatenation at a separator splits both sides. */
  lemma {:induction false} SplitConcat(a: string, c: char, b: string)
    ensures Split(a + [c] + b, c) == Split(a, c) + Split(b, c)
    decreases |a|
  {
    var i := Find(a, [c], 0);
    if i == NPOS {
      if c in a {
        var j :| 0 <= j < |a| && a[j] == c;
        MatchesChar(a, c, j);
      }
      SplitFirst(a, c, b);
    } else {
      MatchesChar(a, c, i);
      var pre, rest := a[..i], a[i + 1..];
      if c in pre {
        var j :| 0 <= j < i && a[j] == c;
        MatchesChar(a, c, j);
      }
      assert a == pre + [c] + rest;
      assert a + [c] + b == pre + [c] + (rest + [c] + b);
      SplitFirst(pre, c, rest + [c] + b);
      SplitConcat(rest, c, b);
      assert [pre] + (Split(rest, c) + Split(b, c)) == ([pre] + Split(rest, c)) + Split(b, c);
    }
  }

  /** The inverse of `Split`: the pieces with the separator between them. */
  function JoinWith(parts: seq<string>, c: char): string
    requires parts != []
  {
    if |parts| == 1 then parts[0] else parts[0] + [c] + JoinWith(parts[1..], c)
  }

  lemma {:induction false} JoinSplit(s: string, c: char)
    ensures JoinWith(Split(s, c), c) == s
    decreases |s|
  {
    var i := Find(s, [c], 0);
    if i != NPOS {
      var rest := s[i + 1..];
      JoinSplit(rest, c);
      MatchesChar(s, c, i);
      assert Split(s, c)[1..] == Split(rest, c);
      assert JoinWith(Split(s, c), c) == s[..i] + [c] + rest;
      CutAround(s, i);
    }
  }

  lemma CutAround(s: string, i: nat)
    requires i < |s|
    ensures s[..i] + [s[i]] + s[i + 1..] == s
  {
  }

  lemma {:induction false} JoinWithConcat(a: seq<string>, b: seq<string>, c: char)
    requires a != [] && b != []
    ensures JoinWith(a + b, c) == JoinWith(a, c) + [c] + JoinWith(b, c)
  {
    if |a| == 1 {
      assert (a + b)[1..] == b;
    } else {
      assert (a + b)[1..] == a[1..] + b;
      JoinWithConcat(a[1..], b, c);
    }
  }
}
