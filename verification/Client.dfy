/** How a client cuts a stream of responses (section 6.3 of RFC 9112), and that it
    recovers what the server framed. */
module Client {
  import opened Text
  import opened HttpResponse

  // ---- Reading one response ----

  const LENGTH_NAME := "Content-Length: "

  function LengthOf(line: string): Option<nat> {
    if |line| >= 16 && line[..16] == LENGTH_NAME && AllDigits(line[16..])
    then Some(Value(line[16..])) else None
  }

  /** The first Content-Length among the CRLF-terminated lines of `text`. */
  function FirstLength(text: string): Option<nat>
    decreases |text|
  {
    var eol := Find(text, CRLF, 0);
    if eol == NPOS then None
    else if LengthOf(text[..eol]).Some? then LengthOf(text[..eol])
    else FirstLength(text[eol + 2..])
  }

  predicate NotModified(head: string) {
    |head| >= 12 && head[9..12] == "304"
  }

  datatype Received = Received(body: string, rest: string)

  /** Cut at the first CRLFCRLF, then take Content-Length bytes; none after HEAD or 304. */
  function Deframe(stream: string, isHead: bool): Option<Received> {
    var end := Find(stream, CRLFCRLF, 0);
    if end == NPOS then None
    else
      var head, after := stream[..end + 2], stream[end + 4..];
      var n := if isHead || NotModified(head) then Some(0) else FirstLength(head);
      if n.None? || n.value > |after| then None
      else Some(Received(after[..n.value], after[n.value..]))
  }

  /** Reading one response for every flag, the client's own note of whether it asked HEAD. */
  function DeframeAll(stream: string, asked: seq<bool>): Option<seq<string>> {
    if asked == [] then (if stream == "" then Some([]) else None)
    else
      match Deframe(stream, asked[0])
      case None => None
      case Some(m) =>
        match DeframeAll(m.rest, asked[1..])
        case None => None
        case Some(bodies) => Some([m.body] + bodies)
  }

  // ---- The header block the server builds ----

  ghost predicate WellFormed(r: Response, date: string) {
    && OneLine("Date: " + date)
    && OneLine("Content-Type: " + r.contentType)
    && (r.lastModified.Some? ==> OneLine("Last-Modified: " + r.lastModified.value))
    && (forall i :: 0 <= i < |r.headers| ==> OneLine(r.headers[i].name + ": " + r.headers[i].value))
    && (r.status == NOT_MODIFIED || r.hasContentLength)
  }

  lemma NoCarriageReturn(s: string)
    requires forall i :: 0 <= i < |s| ==> s[i] != '\r'
    ensures OneLine(s)
  {
    forall j ensures !MatchesAt(s, CRLF, j) {
      MatchesCrlf(s, j);
    }
  }

  lemma {:induction false} CustomAreHeaderLines(headers: seq<Custom>)
    requires forall i :: 0 <= i < |headers| ==> OneLine(headers[i].name + ": " + headers[i].value)
    ensures HeaderLines(CustomLines(headers))
  {
    if headers != [] {
      CustomAreHeaderLines(headers[..|headers| - 1]);
    }
  }

  lemma LeadingAreHeaderLines(r: Response, date: string)
    requires WellFormed(r, date)
    ensures HeaderLines(LeadingLines(r, date))
  {
    hide Reason, Decimal;
    NoCarriageReturn(StatusLine(r.status));
    NoCarriageReturn("Content-Length: " + Decimal(r.contentLength));
  }

  lemma TrailingAreHeaderLines(r: Response, date: string)
    requires WellFormed(r, date)
    ensures HeaderLines(TrailingLines(r))
  {
    NoCarriageReturn("Accept-Ranges: bytes");
    NoCarriageReturn("Connection: " + if r.keepAlive then "keep-alive" else "close");
    CustomAreHeaderLines(r.headers);
  }

  /** The header block ends with its only CRLFCRLF, whatever bytes follow it. */
  lemma HeaderBlockEnd(r: Response, date: string, tail: string)
    requires WellFormed(r, date)
    ensures |HeaderText(r, date)| >= 4
    ensures Find(HeaderText(r, date) + tail, CRLFCRLF, 0) == |HeaderText(r, date)| - 4
  {
    LeadingAreHeaderLines(r, date);
    TrailingAreHeaderLines(r, date);
    BlockEnd(ResponseLines(r, date), tail);
  }

  // ---- Finding the length ----

  function LengthIn(lines: seq<string>): Option<nat> {
    if lines == [] then None
    else if LengthOf(lines[0]).Some? then LengthOf(lines[0])
    else LengthIn(lines[1..])
  }

  lemma {:induction false} FirstLengthOfLines(lines: seq<string>)
    requires HeaderLines(lines)
    ensures FirstLength(JoinLines(lines)) == LengthIn(lines)
  {
    if lines != [] {
      var rest := JoinLines(lines[1..]);
      FirstCrlf(lines[0], rest);
      var text := lines[0] + CRLF + rest;
      assert text[..|lines[0]|] == lines[0] && text[|lines[0]| + 2..] == rest;
      FirstLengthOfLines(lines[1..]);
    }
  }

  lemma {:induction false} LengthInPrefix(lines: seq<string>, more: seq<string>)
    requires LengthIn(lines) != None
    ensures LengthIn(lines + more) == LengthIn(lines)
  {
    assert (lines + more)[0] == lines[0];
    if LengthOf(lines[0]).None? {
      assert (lines + more)[1..] == lines[1..] + more;
      LengthInPrefix(lines[1..], more);
    }
  }

  lemma {:induction false} LengthInSkip(lines: seq<string>, line: string)
    requires forall i :: 0 <= i < |lines| ==> LengthOf(lines[i]) == None
    ensures LengthIn(lines + [line]) == LengthOf(line)
  {
    if lines == [] {
      assert [line][1..] == [] && lines + [line] == [line];
    } else {
      assert (lines + [line])[1..] == lines[1..] + [line];
      LengthInSkip(lines[1..], line);
    }
  }

  lemma NotALength(line: string)
    requires |line| < 9 || line[0] != 'C' || line[8] != 'L'
    ensures LengthOf(line) == None
  {
    if |line| >= 16 {
      assert line[..16][0] == line[0] && line[..16][8] == line[8];
    }
  }

  lemma LengthLine(n: nat)
    ensures LengthOf("Content-Length: " + Decimal(n)) == Some(n)
  {
    var line := "Content-Length: " + Decimal(n);
    assert line[..16] == LENGTH_NAME && line[16..] == Decimal(n);
  }

  /** The client reads the length that was set. */
  lemma LengthInResponse(r: Response, date: string)
    requires r.status != NOT_MODIFIED && r.hasContentLength
    ensures LengthIn(ResponseLines(r, date)) == Some(r.contentLength)
  {
    var line := "Content-Length: " + Decimal(r.contentLength);
    var before := [StatusLine(r.status)] + ["Date: " + date]
                  + if r.contentType != "" then ["Content-Type: " + r.contentType] else [];
    assert StatusLine(r.status)[0] == 'H' && ("Date: " + date)[0] == 'D';
    assert ("Content-Type: " + r.contentType)[8] == 'T';
    NotALength(StatusLine(r.status));
    NotALength("Date: " + date);
    NotALength("Content-Type: " + r.contentType);
    LengthLine(r.contentLength);
    LengthInSkip(before, line);
    assert LeadingLines(r, date) == before + [line];
    LengthInPrefix(LeadingLines(r, date), TrailingLines(r));
  }

  lemma ThreeDigits(n: nat)
    requires 100 <= n < 1000
    ensures |Decimal(n)| == 3
    ensures Decimal(n) == "304" <==> n == 304
  {
    assert Decimal(n) == Decimal(n / 10 / 10) + Decimal(n / 10)[1..] + Decimal(n)[2..];
    assert "304"[..2] == "30" && "30"[..1] == "3" && "3"[..0] == "";
    assert Value("3") == 3 && Value("30") == 30 && Value("304") == 304;
    if n == 304 {
      var s := Decimal(n);
      assert s[2] == '4' && s[1] == '0' && s[0] == '3';
    }
  }

  /** The status code is where a client looks for it. */
  lemma StatusReadBack(r: Response, date: string)
    ensures var head := JoinLines(ResponseLines(r, date));
            && |head| >= 12 && head[9..12] == Decimal(Code(r.status))
            && (NotModified(head) <==> r.status == NOT_MODIFIED)
  {
    hide Reason, Decimal;
    var line := StatusLine(r.status);
    var code := Decimal(Code(r.status));
    ThreeDigits(Code(r.status));
    var text := JoinLines(ResponseLines(r, date));
    assert text == line + (CRLF + JoinLines(ResponseLines(r, date)[1..]));
    assert line[9..12] == code;
    assert text[9..12] == line[9..12];
  }

  /** How many body bytes follow the header block. */
  function BodyBytes(r: Response, isHead: bool): nat {
    if isHead || r.status == NOT_MODIFIED then 0 else r.contentLength
  }

  /** The client finds the end of the header block and takes as many bytes behind it as it
      believes were announced, if there are so many. */
  lemma DeframeTakes(r: Response, date: string, isHead: bool, after: string)
    requires WellFormed(r, date)
    ensures var n := BodyBytes(r, isHead);
            Deframe(HeaderText(r, date) + after, isHead)
            == if n <= |after| then Some(Received(after[..n], after[n..])) else None
  {
    hide JoinLines, LeadingLines, TrailingLines, Code, Decimal, NotModified;
    var lines := JoinLines(ResponseLines(r, date));
    var stream := (lines + CRLF) + after;
    HeaderBlockEnd(r, date, after);
    assert stream[..|lines|] == lines;
    assert stream[|lines| + 2..] == after;
    StatusReadBack(r, date);
    if !isHead && r.status != NOT_MODIFIED {
      LeadingAreHeaderLines(r, date);
      TrailingAreHeaderLines(r, date);
      FirstLengthOfLines(ResponseLines(r, date));
      LengthInResponse(r, date);
    }
  }

  /** A client recovers the body of a response whose body has the promised length, and
      finds the next response right behind it. */
  lemma DeframeResponse(r: Response, date: string, isHead: bool, body: string, rest: string)
    requires WellFormed(r, date) && |body| == BodyBytes(r, isHead)
    ensures Deframe(HeaderText(r, date) + body + rest, isHead) == Some(Received(body, rest))
  {
    hide Deframe, HeaderText;
    Assoc(HeaderText(r, date), body, rest);
    DeframeTakes(r, date, isHead, body + rest);
    assert (body + rest)[..|body|] == body && (body + rest)[|body|..] == rest;
  }
}
