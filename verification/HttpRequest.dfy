/** The request parser: request line, header lines and the Range header. */
module HttpRequest {
  import opened Text
  import ByteRange

  datatype Method = GET | HEAD | UNKNOWN
  datatype Header = Header(name: string, value: string)

  /** The fields of a parsed request. */
  datatype Request = Request(
    verb: Method, rawMethod: string, path: string, version: string, headers: seq<Header>)

  const EMPTY := Request(UNKNOWN, "", "", "", [])

  datatype Parsed = Parsed(ok: bool, request: Request)

  // ---- What the parser computes ----

  function MethodOf(raw: string): Method {
    if raw == "GET" then GET else if raw == "HEAD" then HEAD else UNKNOWN
  }

  /** ASCII `tolower`. */
  function LowerChar(c: char): char {
    if 'A' <= c <= 'Z' then (c as int + 32) as char else c
  }

  function Lower(s: string): (r: string)
    ensures |r| == |s| && forall i :: 0 <= i < |s| ==> r[i] == LowerChar(s[i])
  {
    seq(|s|, i requires 0 <= i < |s| => LowerChar(s[i]))
  }

  function SkipBlanks(s: string): string {
    if s != "" && (s[0] == ' ' || s[0] == '\t') then SkipBlanks(s[1..]) else s
  }

  function ColonOf(line: string): (r: int)
    ensures r == NPOS || 0 <= r < |line|
  {
    var colon := Find(line, ": ", 0);
    if colon != NPOS then colon else Find(line, ":", 0)
  }

  /** The header a line holds, none when it has no colon. */
  function HeaderOf(line: string): seq<Header> {
    var colon := ColonOf(line);
    if colon == NPOS then [] else [Header(Lower(line[..colon]), SkipBlanks(line[colon + 1..]))]
  }

  /** The headers of the lines of `text` that end in CRLF. */
  function HeadersOf(text: string): seq<Header>
    decreases |text|
  {
    var eol := Find(text, CRLF, 0);
    if eol == NPOS then [] else HeaderOf(text[..eol]) + HeadersOf(text[eol + 2..])
  }

  function ParseRequestLine(line: string): Parsed {
    var sp1 := Find(line, " ", 0);
    if sp1 == NPOS then Parsed(false, EMPTY)
    else
      var raw := line[..sp1];
      var sp2 := Find(line, " ", sp1 + 1);
      if sp2 == NPOS then Parsed(false, Request(MethodOf(raw), raw, "", "", []))
      else Parsed(true, Request(MethodOf(raw), raw, line[sp1 + 1..sp2], line[sp2 + 1..], []))
  }

  /** The header block without its terminator. */
  function ParseBlock(block: string): Parsed {
    var lf := Find(block, CRLF, 0);
    if lf == NPOS then Parsed(false, EMPTY)
    else
      var p := ParseRequestLine(block[..lf]);
      if !p.ok then p else Parsed(true, p.request.(headers := HeadersOf(block[lf + 2..])))
  }

  function ParseText(raw: string): Parsed {
    var end := Find(raw, CRLFCRLF, 0);
    if end == NPOS then Parsed(false, EMPTY) else ParseBlock(raw[..end])
  }

  ghost predicate FirstNamed(headers: seq<Header>, name: string, i: nat)
    requires i < |headers|
  {
    headers[i].name == name && forall j :: 0 <= j < i ==> headers[j].name != name
  }

  /** The first header with this (lower-case) name, "" when there is none. */
  function HeaderValue(headers: seq<Header>, name: string): (v: string)
    ensures (forall i :: 0 <= i < |headers| ==> headers[i].name != name) ==> v == ""
    ensures forall i :: 0 <= i < |headers| && FirstNamed(headers, name, i) ==> v == headers[i].value
  {
    if headers == [] then ""
    else if headers[0].name == name then headers[0].value
    else HeaderValue(headers[1..], name)
  }

  // ---- The parser object ----

  class HttpRequest {
    var verb: Method
    var rawMethod: string
    var path: string
    var version: string
    var headers: seq<Header>

    function View(): Request
      reads this
    {
      Request(verb, rawMethod, path, version, headers)
    }

    constructor ()
      ensures View() == EMPTY
    {
      verb, rawMethod, path, version, headers := UNKNOWN, "", "", "", [];
    }

    /** A copy of a parsed request. */
    constructor Of(r: Request)
      ensures View() == r
    {
      verb, rawMethod, path, version, headers := r.verb, r.rawMethod, r.path, r.version, r.headers;
    }

    method Reset()
      modifies this
      ensures View() == EMPTY
    {
      verb := UNKNOWN;
      rawMethod := "";
      path := "";
      version := "";
      headers := [];
    }

    method Parse(raw: string) returns (ok: bool)
      modifies this
      ensures Parsed(ok, View()) == ParseText(raw)
    {
      hide HeadersOf, Find;
      Reset();
      var crlfcrlf := Find(raw, CRLFCRLF, 0);
      if crlfcrlf == NPOS { return false; }
      var block := raw[..crlfcrlf];
      var firstLf := Find(block, CRLF, 0);
      if firstLf == NPOS { return false; }
      var line := block[..firstLf];
      var sp1 := Find(line, " ", 0);
      if sp1 == NPOS { return false; }
      rawMethod := line[..sp1];
      if rawMethod == "GET" {
        verb := GET;
      } else if rawMethod == "HEAD" {
        verb := HEAD;
      } else {
        verb := UNKNOWN;
      }
      var sp2 := Find(line, " ", sp1 + 1);
      if sp2 == NPOS { return false; }
      path := line[sp1 + 1..sp2];
      version := line[sp2 + 1..];
      ParseHeaders(block, firstLf + 2);
      return true;
    }

    method ParseHeaders(block: string, from: nat)
      requires from <= |block|
      modifies `headers
      ensures headers == old(headers) + HeadersOf(block[from..])
    {
      var pos := from;
      while pos < |block|
        invariant from <= pos <= |block|
        invariant headers + HeadersOf(block[pos..]) == old(headers) + HeadersOf(block[from..])
      {
        var eol := Find(block, CRLF, pos);
        FindShift(block, CRLF, pos);
        if eol == NPOS { break; }
        var line := block[pos..eol];
        assert block[pos..][..eol - pos] == line && block[pos..][eol - pos + 2..] == block[eol + 2..];
        pos := eol + 2;
        var parsed := ReadHeaderLine(line);
        AssocHeaders(headers, parsed, HeadersOf(block[pos..]));
        headers := headers + parsed;
      }
      assert HeadersOf(block[pos..]) == [];
    }

    method Header(name: string) returns (value: string)
      ensures value == HeaderValue(headers, name)
    {
      for i := 0 to |headers|
        invariant HeaderValue(headers[i..], name) == HeaderValue(headers, name)
      {
        if headers[i].name == name { return headers[i].value; }
        assert headers[i..][1..] == headers[i + 1..];
      }
      return "";
    }

    method ParseRange(size: nat) returns (range: Option<(int, int)>)
      ensures range == ByteRange.ParseRange(HeaderValue(headers, "range"), size)
    {
      var hdr := Header("range");
      if hdr == "" { return None; }
      if |hdr| < 7 || hdr[..6] != "bytes=" { return None; }
      var val := hdr[6..];
      var dash := Find(val, "-", 0);
      if dash == NPOS { return None; }
      range := Bounds(val[..dash], val[dash + 1..], size);
    }
  }

  /** The interval the two texts give for a file of `size` bytes. */
  method Bounds(startStr: string, endStr: string, size: nat) returns (range: Option<(int, int)>)
    ensures range == match ByteRange.SpecOf(startStr, endStr)
                     case None => None
                     case Some(spec) => ByteRange.Resolve(spec, size)
  {
    var start, end: int := 0, size - 1;
    if startStr == "" {
      var suffix := ReadDigits(endStr);
      if suffix.None? || suffix.value <= 0 { return None; }
      start := size - suffix.value;
      if start < 0 { start := 0; }
    } else {
      var first := ReadDigits(startStr);
      if first.None? { return None; }
      start := first.value;
      if endStr != "" {
        var last := ReadDigits(endStr);
        if last.None? { return None; }
        end := last.value;
      }
    }
    if start >= size || start > end { return None; }
    if end >= size { end := size - 1; }
    return Some((start, end));
  }

  lemma AssocHeaders(a: seq<Header>, b: seq<Header>, c: seq<Header>)
    ensures a + (b + c) == (a + b) + c
  {
  }

  method ReadHeaderLine(line: string) returns (parsed: seq<Header>)
    ensures parsed == HeaderOf(line)
  {
    var colon := Find(line, ": ", 0);
    if colon == NPOS { colon := Find(line, ":", 0); }
    if colon == NPOS { return []; }
    var value := line[colon + 1..];
    while value != "" && (value[0] == ' ' || value[0] == '\t')
      invariant SkipBlanks(value) == SkipBlanks(line[colon + 1..])
      decreases |value|
    {
      value := value[1..];
    }
    return [Header(Lower(line[..colon]), value)];
  }

  /** The digit loop: None on the first character that is not a digit. */
  method ReadDigits(s: string) returns (n: Option<nat>)
    ensures n == if AllDigits(s) then Some(Value(s)) else None
  {
    var acc: nat := 0;
    for i := 0 to |s|
      invariant AllDigits(s[..i]) && acc == Value(s[..i])
    {
      if s[i] < '0' || s[i] > '9' { return None; }
      assert s[..i + 1][..i] == s[..i];
      acc := acc * 10 + DigitValue(s[i]);
    }
    assert s[..|s|] == s;
    return Some(acc);
  }

  // ---- Properties ----

  /** Everything after the first CRLFCRLF is ignored. */
  lemma ParseIgnoresTail(raw: string, tail: string)
    requires Find(raw, CRLFCRLF, 0) != NPOS
    ensures ParseText(raw + tail) == ParseText(raw)
  {
    FindIgnoresTail(raw, tail, CRLFCRLF, 0);
    var end := Find(raw, CRLFCRLF, 0);
    assert (raw + tail)[..end] == raw[..end];
  }

  function RequestLine(rawMethod: string, path: string, version: string): string {
    rawMethod + " " + path + " " + version
  }

  function HeaderLine(h: Header): string {
    h.name + ": " + h.value
  }

  function PrintedHeaders(headers: seq<Header>): seq<string> {
    if headers == [] then [] else [HeaderLine(headers[0])] + PrintedHeaders(headers[1..])
  }

  /** The text a client sends for a request. */
  function PrintRequest(rawMethod: string, path: string, version: string, headers: seq<Header>): string {
    JoinLines([RequestLine(rawMethod, path, version)] + PrintedHeaders(headers)) + CRLF
  }

  function Lowered(headers: seq<Header>): seq<Header> {
    if headers == [] then [] else [headers[0].(name := Lower(headers[0].name))] + Lowered(headers[1..])
  }

  /** A header that can be printed and told apart: no colon in the name, no blank at the
      front of the value, and no line break in either. */
  ghost predicate Printable(h: Header) {
    ':' !in h.name && OneLine(HeaderLine(h))
    && (h.value == "" || (h.value[0] != ' ' && h.value[0] != '\t'))
  }

  lemma HeaderOfPrinted(h: Header)
    requires Printable(h)
    ensures HeaderOf(HeaderLine(h)) == [Header(Lower(h.name), h.value)]
  {
    var line := HeaderLine(h);
    var n := |h.name|;
    assert line[n..n + 2] == ": ";
    forall j | 0 <= j < n ensures !MatchesAt(line, ": ", j) {
      assert line[j] == h.name[j] != ':';
      assert line[j..j + 2][0] == line[j];
    }
    FindIs(line, ": ", 0, n);
    assert line[..n] == h.name;
    var after := line[n + 1..];
    assert after == [' '] + h.value;
    assert after[1..] == h.value;
    assert SkipBlanks(after) == SkipBlanks(h.value) == h.value;
  }

  ghost predicate AllPrintable(headers: seq<Header>) {
    forall i :: 0 <= i < |headers| ==> Printable(headers[i])
  }

  lemma {:induction false} HeadersOfPrinted(headers: seq<Header>, last: string)
    requires AllPrintable(headers) && OneLine(last)
    ensures HeadersOf(JoinLines(PrintedHeaders(headers)) + last) == Lowered(headers)
  {
    var text := JoinLines(PrintedHeaders(headers)) + last;
    if headers == [] {
      assert text == last;
    } else {
      var line := HeaderLine(headers[0]);
      var rest := JoinLines(PrintedHeaders(headers[1..])) + last;
      assert PrintedHeaders(headers)[1..] == PrintedHeaders(headers[1..]);
      assert text == line + CRLF + rest;
      FirstCrlf(line, rest);
      assert text[..|line|] == line && text[|line| + 2..] == rest;
      HeaderOfPrinted(headers[0]);
      HeadersOfPrinted(headers[1..], last);
    }
  }

  lemma ParsePrintedLine(rawMethod: string, path: string, version: string)
    requires ' ' !in rawMethod && ' ' !in path
    ensures ParseRequestLine(RequestLine(rawMethod, path, version))
            == Parsed(true, Request(MethodOf(rawMethod), rawMethod, path, version, []))
  {
    SpacesOf(rawMethod, path, version);
    ThreeParts(rawMethod, path, version);
  }

  /** The request line cut at its two spaces. */
  lemma ThreeParts(a: string, b: string, c: string)
    ensures var line := RequestLine(a, b, c);
            && line == a + [' '] + (b + " " + c)
            && line[..|a|] == a
            && line[|a| + 1..|a| + 1 + |b|] == b
            && line[|a| + 1 + |b| + 1..] == c
  {
  }

  lemma SpacesOf(rawMethod: string, path: string, version: string)
    requires ' ' !in rawMethod && ' ' !in path
    ensures var line := rawMethod + [' '] + (path + " " + version);
            && Find(line, " ", 0) == |rawMethod|
            && Find(line, " ", |rawMethod| + 1) == |rawMethod| + 1 + |path|
  {
    var rest := path + " " + version;
    var line := rawMethod + [' '] + rest;
    FindChar(rawMethod, ' ', rest);
    FindShift(line, " ", |rawMethod| + 1);
    assert line[|rawMethod| + 1..] == rest;
    FindChar(path, ' ', version);
  }

  lemma {:induction false} PrintedHeadersSnoc(headers: seq<Header>, h: Header)
    ensures PrintedHeaders(headers + [h]) == PrintedHeaders(headers) + [HeaderLine(h)]
  {
    if headers != [] {
      assert (headers + [h])[1..] == headers[1..] + [h];
      PrintedHeadersSnoc(headers[1..], h);
    } else {
      assert [h][1..] == [];
      assert headers + [h] == [h];
    }
  }

  lemma {:induction false} PrintedAreHeaderLines(headers: seq<Header>)
    requires AllPrintable(headers)
    ensures HeaderLines(PrintedHeaders(headers))
  {
    if headers != [] {
      PrintedAreHeaderLines(headers[1..]);
    }
  }

  /** The header block of a printed request: the request line, all header lines but the
      last with their terminators, and the last one without. */
  lemma PrintedBlock(requestLine: string, headers: seq<Header>, h: Header, tail: string)
    requires requestLine != "" && OneLine(requestLine) && AllPrintable(headers) && Printable(h)
    ensures var raw := JoinLines([requestLine] + PrintedHeaders(headers + [h])) + CRLF + tail;
            var end := Find(raw, CRLFCRLF, 0);
            && end != NPOS
            && raw[..end] == requestLine + CRLF + (JoinLines(PrintedHeaders(headers)) + HeaderLine(h))
  {
    hide HeaderLine, PrintedHeaders, OneLine;
    var hs := PrintedHeaders(headers);
    var lines := [requestLine] + PrintedHeaders(headers + [h]);
    var raw := JoinLines(lines) + CRLF + tail;
    PrintedAreHeaderLines(headers + [h]);
    BlockEnd(lines, tail);
    PrintedHeadersSnoc(headers, h);
    assert lines[1..] == hs + [HeaderLine(h)];
    JoinLinesAppend(hs, [HeaderLine(h)]);
    assert [HeaderLine(h)][1..] == [];
    assert JoinLines([HeaderLine(h)]) == HeaderLine(h) + CRLF;
    var block := requestLine + CRLF + (JoinLines(hs) + HeaderLine(h));
    assert JoinLines(lines) == block + CRLF;
    assert raw[..|block|] == block;
  }

  /** Parsing undoes printing, whatever follows the request: the three fields of the
      request line and every header line but the last come back, in order, the names in
      lower case; the verb is GET or HEAD for just these two words. */
  lemma ParsePrinted(rawMethod: string, path: string, version: string,
                     headers: seq<Header>, last: Header, tail: string)
    requires ' ' !in rawMethod && ' ' !in path && OneLine(RequestLine(rawMethod, path, version))
    requires AllPrintable(headers) && Printable(last)
    ensures ParseText(PrintRequest(rawMethod, path, version, headers + [last]) + tail)
            == Parsed(true, Request(if rawMethod == "GET" then GET else if rawMethod == "HEAD" then HEAD else UNKNOWN,
                                    rawMethod, path, version, Lowered(headers)))
  {
    var line := RequestLine(rawMethod, path, version);
    var text := JoinLines(PrintedHeaders(headers)) + HeaderLine(last);
    PrintedBlock(line, headers, last, tail);
    var block := line + CRLF + text;
    FirstCrlf(line, text);
    assert block[..|line|] == line && block[|line| + 2..] == text;
    ParsePrintedLine(rawMethod, path, version);
    HeadersOfPrinted(headers, HeaderLine(last));
  }

  /** A request without any header line is rejected, whatever its request line. */
  lemma RequestWithoutHeadersRejected(rawMethod: string, path: string, version: string, tail: string)
    requires OneLine(RequestLine(rawMethod, path, version))
    ensures ParseText(PrintRequest(rawMethod, path, version, []) + tail) == Parsed(false, EMPTY)
  {
    var line := RequestLine(rawMethod, path, version);
    BlockEnd([line], tail);
    assert [line][1..] == [] && [line] + PrintedHeaders([]) == [line];
    assert JoinLines([line]) == line + CRLF;
    var raw := JoinLines([line]) + CRLF + tail;
    assert raw[..|line|] == line;
  }
}
