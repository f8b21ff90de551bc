/** What the parser accepts and what it reads, for every text: the request line, the verb,
    the header lines, and the case of names. */
module RequestProperties {
  import opened Text
  import opened HttpRequest

  // ---- Which texts are requests ----

  /** The text starts with `line`, a line break, `rest`, and the first empty line; `line` is
      its first line. */
  ghost predicate Framed(text: string, line: string, rest: string) {
    && line + CRLF + rest + CRLFCRLF <= text
    && OneLine(line)
    && forall j :: 0 <= j < |line| + 2 + |rest| ==> !MatchesAt(text, CRLFCRLF, j)
  }

  /** A request line: a method word and a path without blanks, and a version. */
  ghost predicate Says(line: string, rawMethod: string, path: string, version: string) {
    line == rawMethod + " " + path + " " + version && ' ' !in rawMethod && ' ' !in path
  }

  lemma FramedBlock(text: string, line: string, rest: string)
    requires Framed(text, line, rest)
    ensures Find(text, CRLFCRLF, 0) == |line| + 2 + |rest|
    ensures var block := text[..|line| + 2 + |rest|];
            Find(block, CRLF, 0) == |line| && block[..|line|] == line && block[|line| + 2..] == rest
  {
    var whole := line + CRLF + rest + CRLFCRLF;
    var end := |line| + 2 + |rest|;
    assert text[..|whole|] == whole;
    assert text[end..end + 4] == whole[end..end + 4] == CRLFCRLF;
    FindIs(text, CRLFCRLF, 0, end);
    assert text[..end] == whole[..end] == line + CRLF + rest;
    FirstCrlf(line, rest);
  }

  lemma FrameOf(text: string) returns (line: string, rest: string)
    requires Find(text, CRLFCRLF, 0) != NPOS
    requires Find(text[..Find(text, CRLFCRLF, 0)], CRLF, 0) != NPOS
    ensures Framed(text, line, rest)
  {
    var end := Find(text, CRLFCRLF, 0);
    var block := text[..end];
    var lf := Find(block, CRLF, 0);
    line, rest := block[..lf], block[lf + 2..];
    assert block == line + CRLF + rest;
    assert text[..end + 4] == block + CRLFCRLF;
    forall j ensures !MatchesAt(line, CRLF, j) {
      if MatchesAt(line, CRLF, j) {
        assert block == line + block[lf..];
        MatchInPrefix(line, block[lf..], CRLF, j);
      }
    }
  }

  lemma LineIs(line: string, rawMethod: string, path: string, version: string)
    ensures Says(line, rawMethod, path, version)
            <==> var p := ParseRequestLine(line);
                 p.ok && p.request.rawMethod == rawMethod && p.request.path == path && p.request.version == version
  {
    if Says(line, rawMethod, path, version) {
      ParsePrintedLine(rawMethod, path, version);
      assert line == RequestLine(rawMethod, path, version);
    }
    if ParseRequestLine(line).ok {
      var r := ParseRequestLine(line).request;
      LineParts(line);
      assert r.rawMethod == rawMethod && r.path == path && r.version == version ==>
          Says(line, rawMethod, path, version);
    }
  }

  /** The parts cut out at the first two blanks. */
  lemma LineParts(line: string)
    requires ParseRequestLine(line).ok
    ensures var r := ParseRequestLine(line).request; Says(line, r.rawMethod, r.path, r.version)
  {
    var sp1 := Find(line, " ", 0);
    var sp2 := Find(line, " ", sp1 + 1);
    MatchesChar(line, ' ', sp1);
    MatchesChar(line, ' ', sp2);
    forall j | 0 <= j < |line| && j != sp1 && j < sp2 ensures line[j] != ' ' {
      MatchesChar(line, ' ', j);
    }
    TwoCuts(line, sp1, sp2);
  }

  lemma TwoCuts(line: string, i: nat, j: nat)
    requires i < j < |line| && line[i] == line[j] == ' '
    ensures line == line[..i] + " " + line[i + 1..j] + " " + line[j + 1..]
  {
  }

  lemma FramedParse(text: string, line: string, rest: string)
    requires Framed(text, line, rest)
    ensures var p := ParseRequestLine(line);
            ParseText(text) == if p.ok then Parsed(true, p.request.(headers := HeadersOf(rest))) else p
  {
    hide Framed, ParseRequestLine, HeadersOf, Find;
    FramedBlock(text, line, rest);
  }

  lemma RequestIsFramed(text: string) returns (line: string, rest: string)
    requires ParseText(text).ok
    ensures Framed(text, line, rest)
  {
    hide Framed, ParseRequestLine, HeadersOf, Find;
    line, rest := FrameOf(text);
  }

  /** A text is a request with these three words if and only if it starts with them as its
      first line, more lines follow, and an empty one ends them. */
  lemma AcceptedIff(text: string, rawMethod: string, path: string, version: string)
    ensures (var p := ParseText(text);
             p.ok && p.request.rawMethod == rawMethod && p.request.path == path && p.request.version == version)
            <==> exists line, rest :: Framed(text, line, rest) && Says(line, rawMethod, path, version)
  {
    hide Framed, Says, ParseRequestLine, ParseText, HeadersOf;
    if ParseText(text).ok {
      var line, rest := RequestIsFramed(text);
      FramedParse(text, line, rest);
      LineIs(line, rawMethod, path, version);
    }
    if line, rest :| Framed(text, line, rest) && Says(line, rawMethod, path, version) {
      FramedParse(text, line, rest);
      LineIs(line, rawMethod, path, version);
    }
  }

  /** The headers of a request are those of the lines after the first. */
  lemma HeadersOfText(text: string, line: string, rest: string)
    requires Framed(text, line, rest) && ParseText(text).ok
    ensures ParseText(text).request.headers == HeadersOf(rest)
  {
    hide Framed, ParseRequestLine, ParseText, HeadersOf;
    FramedParse(text, line, rest);
  }

  /** The verb of a text that parses is GET exactly for the word "GET" and HEAD exactly for
      the word "HEAD". */
  lemma VerbMeaning(text: string)
    requires ParseText(text).ok
    ensures var r := ParseText(text).request;
            && (r.verb == GET <==> r.rawMethod == "GET")
            && (r.verb == HEAD <==> r.rawMethod == "HEAD")
            && (r.verb == UNKNOWN <==> r.rawMethod != "GET" && r.rawMethod != "HEAD")
  {
    hide Find, HeadersOf;
    assert "GET" != "HEAD";
  }

  // ---- Header lines ----

  predicate Blank(s: string) {
    forall i :: 0 <= i < |s| ==> s[i] == ' ' || s[i] == '\t'
  }

  /** How a header line is cut: at its first ": " if it has one, else at its first ':';
      blanks behind the colon belong to neither side. */
  ghost predicate Cut(line: string, name: string, blanks: string, value: string) {
    && line == name + ":" + blanks + value
    && Blank(blanks) && (value != "" ==> value[0] != ' ' && value[0] != '\t')
    && (if exists j :: MatchesAt(line, ": ", j)
        then MatchesAt(line, ": ", |name|) && forall j :: 0 <= j < |name| ==> !MatchesAt(line, ": ", j)
        else ':' !in name)
  }

  lemma {:induction false} SkipsBlanks(blanks: string, value: string)
    requires Blank(blanks) && (value != "" ==> value[0] != ' ' && value[0] != '\t')
    ensures SkipBlanks(blanks + value) == value
  {
    if blanks == "" {
      assert blanks + value == value;
    } else {
      assert (blanks + value)[1..] == blanks[1..] + value;
      SkipsBlanks(blanks[1..], value);
    }
  }

  lemma ColonOfCut(line: string, name: string, blanks: string, value: string)
    requires Cut(line, name, blanks, value)
    ensures ColonOf(line) == |name|
  {
    if exists j :: MatchesAt(line, ": ", j) {
      FindIs(line, ": ", 0, |name|);
    } else {
      assert line == name + [':'] + (blanks + value);
      FindChar(name, ':', blanks + value);
    }
  }

  /** However a line is cut, that is the header it holds. */
  lemma HeaderOfCut(line: string, name: string, blanks: string, value: string)
    requires Cut(line, name, blanks, value)
    ensures HeaderOf(line) == [Header(Lower(name), value)]
  {
    ColonOfCut(line, name, blanks, value);
    assert line[..|name|] == name && line[|name| + 1..] == blanks + value;
    SkipsBlanks(blanks, value);
  }

  /** Every line with a colon can be cut, and a line without one holds no header. */
  lemma HeaderOfLine(line: string)
    ensures ':' !in line ==> HeaderOf(line) == []
    ensures ':' in line ==> exists name, blanks, value :: Cut(line, name, blanks, value)
  {
    if ':' in line {
      var c := CutPoint(line);
      var blanks, value := BlanksOff(line[c + 1..]);
      CutAround(line, c);
      assert line == line[..c] + ":" + blanks + value;
      assert Cut(line, line[..c], blanks, value);
    } else {
      MatchesChar(line, ':', Find(line, ":", 0));
      PairHasColon(line, Find(line, ": ", 0));
    }
  }

  lemma PairHasColon(line: string, j: int)
    ensures MatchesAt(line, ": ", j) ==> ':' in line
  {
    if MatchesAt(line, ": ", j) {
      assert line[j] == line[j..j + 2][0];
    }
  }

  lemma CutPoint(line: string) returns (c: nat)
    requires ':' in line
    ensures c < |line| && line[c] == ':'
    ensures if exists j :: MatchesAt(line, ": ", j)
            then MatchesAt(line, ": ", c) && forall j :: 0 <= j < c ==> !MatchesAt(line, ": ", j)
            else ':' !in line[..c]
  {
    var j := Find(line, ": ", 0);
    if j != NPOS {
      c := j;
      assert line[j..j + 2][0] == line[j];
    } else {
      var k :| 0 <= k < |line| && line[k] == ':';
      MatchesChar(line, ':', k);
      c := Find(line, ":", 0);
      MatchesChar(line, ':', c);
      forall i | 0 <= i < c ensures line[i] != ':' {
        MatchesChar(line, ':', i);
      }
    }
  }

  lemma {:induction false} BlanksOff(s: string) returns (blanks: string, value: string)
    ensures s == blanks + value && Blank(blanks) && (value != "" ==> value[0] != ' ' && value[0] != '\t')
  {
    if s != "" && (s[0] == ' ' || s[0] == '\t') {
      blanks, value := BlanksOff(s[1..]);
      blanks := [s[0]] + blanks;
    } else {
      blanks, value := "", s;
    }
  }

  /** The headers of lines, in order, without those that hold none. */
  function HeadersOn(lines: seq<string>): seq<Header> {
    if lines == [] then [] else HeaderOf(lines[0]) + HeadersOn(lines[1..])
  }

  /** Every line but the last, which lacks its line break, is read for the header it holds. */
  lemma {:induction false} HeadersOfLines(lines: seq<string>, last: string)
    requires OneLine(last) && forall l :: l in lines ==> OneLine(l)
    ensures HeadersOf(JoinLines(lines) + last) == HeadersOn(lines)
  {
    var text := JoinLines(lines) + last;
    if lines == [] {
      assert text == last;
    } else {
      var rest := JoinLines(lines[1..]) + last;
      assert text == lines[0] + CRLF + rest;
      FirstCrlf(lines[0], rest);
      assert text[..|lines[0]|] == lines[0] && text[|lines[0]| + 2..] == rest;
      HeadersOfLines(lines[1..], last);
    }
  }

  // ---- The case of names ----

  /** The 26 capitals become the small letters in their places, and nothing else changes. */
  lemma Lowering(c: char)
    ensures forall i :: 0 <= i < 26 && c == CAPITALS[i] ==> LowerChar(c) == SMALL[i]
    ensures c !in CAPITALS ==> LowerChar(c) == c
  {
    CapitalsAre(c);
  }
}
