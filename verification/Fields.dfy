/** What a client reads in a response: the status line, the values of the named fields, the
    interval in Content-Range, and the body. */
module Fields {
  import opened Text
  import opened HttpResponse
  import opened Client
  import opened SendingRuns

  // ---- The lines of a header block ----

  /** The CRLF-terminated lines of a text. */
  function Lines(text: string): seq<string>
    decreases |text|
  {
    var eol := Find(text, CRLF, 0);
    if eol == NPOS then [] else [text[..eol]] + Lines(text[eol + 2..])
  }

  lemma {:induction false} LinesOfJoin(lines: seq<string>)
    requires forall l :: l in lines ==> OneLine(l)
    ensures Lines(JoinLines(lines)) == lines
  {
    hide Lines, OneLine;
    if lines == [] {
      NoLines();
    } else {
      LinesOfJoin(lines[1..]);
      FirstOfLines(lines[0], JoinLines(lines[1..]));
    }
  }

  lemma NoLines()
    ensures Lines("") == []
  {
  }

  lemma FirstOfLines(line: string, rest: string)
    requires OneLine(line)
    ensures Lines(line + CRLF + rest) == [line] + Lines(rest)
  {
    hide OneLine;
    FirstCrlf(line, rest);
    var text := line + CRLF + rest;
    assert text[..|line|] == line && text[|line| + 2..] == rest;
  }

  // ---- Named fields ----

  /** The value on a line `name: value`. */
  function ValueOn(line: string, name: string): Option<string> {
    var front := name + ": ";
    if front <= line then Some(line[|front|..]) else None
  }

  /** The values of all the lines with this name, in order. */
  function ValuesOn(lines: seq<string>, name: string): seq<string> {
    if lines == [] then []
    else (match ValueOn(lines[0], name) case None => [] case Some(v) => [v]) + ValuesOn(lines[1..], name)
  }

  lemma {:induction false} ValuesConcat(a: seq<string>, b: seq<string>, name: string)
    ensures ValuesOn(a + b, name) == ValuesOn(a, name) + ValuesOn(b, name)
  {
    if a == [] {
      assert a + b == b;
    } else {
      assert (a + b)[1..] == a[1..] + b;
      ValuesConcat(a[1..], b, name);
    }
  }

  /** A line printed with a name is read under that name and no other. */
  lemma ValueOnLine(name: string, value: string, asked: string)
    requires ':' !in name && ':' !in asked
    ensures ValueOn(name + ": " + value, asked) == if name == asked then Some(value) else None
  {
    var line, front := name + ": " + value, asked + ": ";
    FindChar(name, ':', " " + value);
    assert line == name + [':'] + (" " + value);
    if name == asked {
      assert line[..|front|] == front;
    }
    if front <= line {
      FindChar(asked, ':', " " + line[|front|..]);
      assert line == asked + [':'] + (" " + line[|front|..]);
      assert asked == line[..|asked|] == name;
    }
    assert line[|name| + 2..] == value;
  }

  lemma ValuesOnLine(name: string, value: string, asked: string)
    requires ':' !in name && ':' !in asked
    ensures ValuesOn([name + ": " + value], asked) == if name == asked then [value] else []
  {
    ValueOnLine(name, value, asked);
    assert [name + ": " + value][1..] == [];
  }

  // ---- The whole response ----

  /** A response as a client sees it: its status line, the values under six names, and the
      bytes that follow the header block. */
  datatype Seen = Seen(
    statusLine: string, contentType: seq<string>, contentLength: seq<string>, lastModified: seq<string>,
    acceptRanges: seq<string>, connection: seq<string>, contentRange: seq<string>, body: string)

  /** Reading a header block and what comes with it. */
  function SeenIn(header: string, body: string): Seen {
    var lines := Lines(header);
    Seen(if lines == [] then "" else lines[0],
         ValuesOn(lines, "Content-Type"), ValuesOn(lines, "Content-Length"), ValuesOn(lines, "Last-Modified"),
         ValuesOn(lines, "Accept-Ranges"), ValuesOn(lines, "Connection"), ValuesOn(lines, "Content-Range"), body)
  }

  function SeenOf(p: Plan): Seen
    requires PlanFits(p)
  {
    SeenIn(p.header, Payload(p))
  }

  // ---- The status lines ----

  lemma OneDigit(n: nat)
    requires n < 10
    ensures (n + '0' as int) as char == DIGITS[n]
  {
  }

  lemma LastDigit(n: nat)
    requires n >= 10
    ensures Decimal(n) == Decimal(n / 10) + [DIGITS[n % 10]]
  {
    OneDigit(n % 10);
  }

  /** A number of three digits, digit by digit. */
  lemma ThreeDigitText(a: nat, b: nat, c: nat)
    requires 0 < a < 10 && b < 10 && c < 10
    ensures Decimal(100 * a + 10 * b + c) == [DIGITS[a]] + [DIGITS[b]] + [DIGITS[c]]
  {
    hide Decimal, Value, AllDigits, DIGITS;
    var n := 100 * a + 10 * b + c;
    ThreePlaces(a, b, c);
    FirstDigit(a);
    LastDigit(n);
    LastDigit(n / 10);
  }

  lemma ThreePlaces(a: nat, b: nat, c: nat)
    requires b < 10 && c < 10
    ensures var n := 100 * a + 10 * b + c;
            n % 10 == c && n / 10 == 10 * a + b && n / 10 % 10 == b && n / 10 / 10 == a
  {
    var n := 100 * a + 10 * b + c;
    assert n / 10 == 10 * a + b;
  }

  lemma FirstDigit(n: nat)
    requires n < 10
    ensures Decimal(n) == [DIGITS[n]]
  {
    OneDigit(n);
  }

  function StatusText(code: string, reason: string): string {
    "HTTP/1.1 " + code + " " + reason
  }

  /** The code and the phrase of a status. */
  predicate Called(s: Status, code: string, reason: string) {
    Decimal(Code(s)) == code && Reason(s) == reason
  }

  lemma CalledLine(s: Status, code: string, reason: string)
    requires Called(s, code, reason)
    ensures StatusLine(s) == StatusText(code, reason)
  {
    hide Decimal, Reason, Code;
  }

  lemma CodeText(s: Status, a: nat, b: nat, c: nat, text: string)
    requires 0 < a < 10 && b < 10 && c < 10 && Code(s) == 100 * a + 10 * b + c
    requires |text| == 3 && text[0] == DIGITS[a] && text[1] == DIGITS[b] && text[2] == DIGITS[c]
    ensures Decimal(Code(s)) == text
  {
    hide Decimal, Code;
    ThreeDigitText(a, b, c);
  }

  /** The codes and phrases of section 15 of RFC 9110. */
  lemma StatusTable()
    ensures Called(OK, "200", "OK")
    ensures Called(PARTIAL_CONTENT, "206", "Partial Content")
    ensures Called(NOT_MODIFIED, "304", "Not Modified")
    ensures Called(BAD_REQUEST, "400", "Bad Request")
    ensures Called(FORBIDDEN, "403", "Forbidden")
    ensures Called(NOT_FOUND, "404", "Not Found")
    ensures Called(METHOD_NOT_ALLOWED, "405", "Method Not Allowed")
    ensures Called(RANGE_NOT_SATISFIABLE, "416", "Range Not Satisfiable")
    ensures Called(INTERNAL_ERROR, "500", "Internal Server Error")
    ensures Called(NOT_IMPLEMENTED, "501", "Not Implemented")
  {
    hide Decimal;
    CodeText(OK, 2, 0, 0, "200");
    CodeText(PARTIAL_CONTENT, 2, 0, 6, "206");
    CodeText(NOT_MODIFIED, 3, 0, 4, "304");
    CodeText(BAD_REQUEST, 4, 0, 0, "400");
    CodeText(FORBIDDEN, 4, 0, 3, "403");
    CodeText(NOT_FOUND, 4, 0, 4, "404");
    CodeText(METHOD_NOT_ALLOWED, 4, 0, 5, "405");
    CodeText(RANGE_NOT_SATISFIABLE, 4, 1, 6, "416");
    CodeText(INTERNAL_ERROR, 5, 0, 0, "500");
    CodeText(NOT_IMPLEMENTED, 5, 0, 1, "501");
  }

  // ---- The header block the server writes ----

  lemma NoColonNoValue(line: string, asked: string)
    requires ':' !in line
    ensures ValueOn(line, asked) == None
  {
    assert (asked + ": ")[|asked|] == ':';
  }

  lemma NoColonNoValues(line: string, asked: string)
    requires ':' !in line
    ensures ValuesOn([line], asked) == []
  {
    NoColonNoValue(line, asked);
    assert [line][1..] == [];
  }

  /** The value of an optional line. */
  function Only(present: bool, name: string, value: string, asked: string): seq<string> {
    if present && name == asked then [value] else []
  }

  lemma ValuesOnOptional(present: bool, name: string, value: string, asked: string)
    requires ':' !in name && ':' !in asked
    ensures ValuesOn(if present then [name + ": " + value] else [], asked) == Only(present, name, value, asked)
  {
    ValuesOnLine(name, value, asked);
  }

  lemma ValuesInLeading(r: Response, date: string, asked: string)
    requires ':' !in asked
    ensures var sent := r.status != NOT_MODIFIED;
            ValuesOn(LeadingLines(r, date), asked)
            == Only(true, "Date", date, asked)
               + Only(sent && r.contentType != "", "Content-Type", r.contentType, asked)
               + Only(sent && r.hasContentLength, "Content-Length", Decimal(r.contentLength), asked)
  {
    hide Decimal, ValuesOn, Only, StatusLine, LeadingLines;
    var sent := r.status != NOT_MODIFIED;
    var status, day := [StatusLine(r.status)], ["Date" + ": " + date];
    var kind := if sent && r.contentType != "" then ["Content-Type" + ": " + r.contentType] else [];
    var length := if sent && r.hasContentLength then ["Content-Length" + ": " + Decimal(r.contentLength)] else [];
    StatusHasNoColon(r.status);
    NoColonNoValues(StatusLine(r.status), asked);
    ValuesOnOptional(true, "Date", date, asked);
    ValuesOnOptional(sent && r.contentType != "", "Content-Type", r.contentType, asked);
    ValuesOnOptional(sent && r.hasContentLength, "Content-Length", Decimal(r.contentLength), asked);
    ValuesConcat(status, day, asked);
    ValuesConcat(status + day, kind, asked);
    ValuesConcat(status + day + kind, length, asked);
    LeadingParts(r, date, status, day, kind, length);
  }

  lemma LeadingParts(r: Response, date: string, status: seq<string>, day: seq<string>, kind: seq<string>,
                     length: seq<string>)
    requires status == [StatusLine(r.status)] && day == ["Date" + ": " + date]
    requires kind == if r.status != NOT_MODIFIED && r.contentType != "" then ["Content-Type" + ": " + r.contentType]
                     else []
    requires length == if r.status != NOT_MODIFIED && r.hasContentLength
                       then ["Content-Length" + ": " + Decimal(r.contentLength)] else []
    ensures LeadingLines(r, date) == status + day + kind + length
  {
    hide Decimal, StatusLine;
    assert "Date" + ": " == "Date: ";
    assert "Content-Type" + ": " == "Content-Type: " && "Content-Length" + ": " == "Content-Length: ";
  }

  lemma StatusHasNoColon(s: Status)
    ensures ':' !in StatusLine(s)
  {
    hide Decimal, Reason, Code;
    ReasonHasNoColon(s);
    assert ':' !in "HTTP/1.1 " && ':' !in " ";
    assert ':' !in Decimal(Code(s));
  }

  lemma ReasonHasNoColon(s: Status)
    ensures ':' !in Reason(s)
  {
  }

  function TextOr(o: Option<string>, otherwise: string): string {
    match o
    case None => otherwise
    case Some(text) => text
  }

  lemma ValuesInTrailing(r: Response, asked: string)
    requires ':' !in asked
    ensures ValuesOn(TrailingLines(r), asked)
            == Only(r.lastModified.Some?, "Last-Modified", TextOr(r.lastModified, ""), asked)
               + Only(r.acceptRanges, "Accept-Ranges", "bytes", asked)
               + Only(true, "Connection", if r.keepAlive then "keep-alive" else "close", asked)
               + ValuesOn(CustomLines(r.headers), asked)
  {
    hide ValuesOn, Only, CustomLines, TrailingLines;
    var persist := if r.keepAlive then "keep-alive" else "close";
    var modified := if r.lastModified.Some? then ["Last-Modified" + ": " + TextOr(r.lastModified, "")] else [];
    var ranges := if r.acceptRanges then ["Accept-Ranges" + ": " + "bytes"] else [];
    var connection := ["Connection" + ": " + persist];
    ValuesOnOptional(r.lastModified.Some?, "Last-Modified", TextOr(r.lastModified, ""), asked);
    ValuesOnOptional(r.acceptRanges, "Accept-Ranges", "bytes", asked);
    ValuesOnOptional(true, "Connection", persist, asked);
    ValuesConcat(modified, ranges, asked);
    ValuesConcat(modified + ranges, connection, asked);
    ValuesConcat(modified + ranges + connection, CustomLines(r.headers), asked);
    TrailingParts(r, persist, modified, ranges, connection);
  }

  lemma TrailingParts(r: Response, persist: string, modified: seq<string>, ranges: seq<string>,
                      connection: seq<string>)
    requires persist == if r.keepAlive then "keep-alive" else "close"
    requires modified == if r.lastModified.Some? then ["Last-Modified" + ": " + TextOr(r.lastModified, "")] else []
    requires ranges == if r.acceptRanges then ["Accept-Ranges" + ": " + "bytes"] else []
    requires connection == ["Connection" + ": " + persist]
    ensures TrailingLines(r) == modified + ranges + connection + CustomLines(r.headers)
  {
    hide CustomLines;
    assert "Last-Modified" + ": " == "Last-Modified: " && "Connection" + ": " == "Connection: ";
    assert "Accept-Ranges" + ": " + "bytes" == "Accept-Ranges: bytes";
  }

  lemma LinesOfHeader(r: Response, date: string)
    requires WellFormed(r, date)
    ensures Lines(HeaderText(r, date)) == ResponseLines(r, date) + [""]
  {
    hide ResponseLines;
    LeadingAreHeaderLines(r, date);
    TrailingAreHeaderLines(r, date);
    LinesAreOne(r, date);
    NoCarriageReturn("");
    AppendLine(ResponseLines(r, date), "");
    assert HeaderText(r, date) == JoinLines(ResponseLines(r, date) + [""]);
    LinesOfJoin(ResponseLines(r, date) + [""]);
  }

  lemma LinesAreOne(r: Response, date: string)
    requires HeaderLines(LeadingLines(r, date)) && HeaderLines(TrailingLines(r))
    ensures HeaderLines(ResponseLines(r, date))
  {
  }

  /** The values that a client finds under a name. */
  lemma ValuesInHeader(r: Response, date: string, asked: string)
    requires WellFormed(r, date) && ':' !in asked
    ensures ValuesOn(Lines(HeaderText(r, date)), asked)
            == ValuesOn(LeadingLines(r, date), asked) + ValuesOn(TrailingLines(r), asked)
  {
    hide ValuesOn, HeaderText, LeadingLines, TrailingLines;
    LinesOfHeader(r, date);
    ValuesConcat(LeadingLines(r, date), TrailingLines(r), asked);
    ValuesConcat(ResponseLines(r, date), [""], asked);
    NoColonNoValues("", asked);
  }

  /** The custom header lines, at most one of them. */
  lemma ValuesInCustom(headers: seq<Custom>, asked: string)
    requires |headers| <= 1 && ':' !in asked && forall i :: 0 <= i < |headers| ==> ':' !in headers[i].name
    ensures ValuesOn(CustomLines(headers), asked)
            == if headers != [] && headers[0].name == asked then [headers[0].value] else []
  {
    if headers != [] {
      ValuesOnLine(headers[0].name, headers[0].value, asked);
      assert headers[..0] == [] && CustomLines(headers) == [headers[0].name + ": " + headers[0].value];
    }
  }

  lemma NamedValues(r: Response, date: string, asked: string)
    requires WellFormed(r, date) && |r.headers| <= 1 && ':' !in asked
    requires forall i :: 0 <= i < |r.headers| ==> r.headers[i].name == "Content-Range"
    ensures var sent := r.status != NOT_MODIFIED;
            ValuesOn(Lines(HeaderText(r, date)), asked)
            == Only(true, "Date", date, asked)
               + Only(sent && r.contentType != "", "Content-Type", r.contentType, asked)
               + Only(sent && r.hasContentLength, "Content-Length", Decimal(r.contentLength), asked)
               + (Only(r.lastModified.Some?, "Last-Modified", TextOr(r.lastModified, ""), asked)
                  + Only(r.acceptRanges, "Accept-Ranges", "bytes", asked)
                  + Only(true, "Connection", if r.keepAlive then "keep-alive" else "close", asked)
                  + if r.headers != [] && "Content-Range" == asked then [r.headers[0].value] else [])
  {
    hide ValuesOn, HeaderText, LeadingLines, TrailingLines, Lines, Decimal, Reason, CustomLines, Only;
    ValuesInHeader(r, date, asked);
    ValuesInLeading(r, date, asked);
    ValuesInTrailing(r, asked);
    ValuesInCustom(r.headers, asked);
  }

  lemma Names()
    ensures "Date" !in {"Content-Type", "Content-Length", "Last-Modified"}
    ensures "Date" !in {"Accept-Ranges", "Connection", "Content-Range"}
    ensures "Content-Type" !in {"Content-Length", "Last-Modified", "Accept-Ranges", "Connection", "Content-Range"}
    ensures "Content-Length" !in {"Last-Modified", "Accept-Ranges", "Connection", "Content-Range"}
    ensures "Last-Modified" !in {"Accept-Ranges", "Connection", "Content-Range"}
    ensures "Accept-Ranges" !in {"Connection", "Content-Range"} && "Connection" != "Content-Range"
  {
    assert "Content-Type"[8] == 'T' && "Content-Length"[8] == 'L' && "Content-Range"[8] == 'R';
    assert "Last-Modified"[0] == 'L' && "Accept-Ranges"[0] == 'A' && "Content-Range"[0] == 'C';
  }

  /** So a client finds each field that was set, once, and no other. */
  lemma HeaderSeen(r: Response, date: string, body: string)
    requires WellFormed(r, date) && |r.headers| <= 1
    requires forall i :: 0 <= i < |r.headers| ==> r.headers[i].name == "Content-Range"
    ensures var sent := r.status != NOT_MODIFIED;
            SeenIn(HeaderText(r, date), body)
            == Seen(StatusLine(r.status),
                    if sent && r.contentType != "" then [r.contentType] else [],
                    if sent && r.hasContentLength then [Decimal(r.contentLength)] else [],
                    if r.lastModified.Some? then [r.lastModified.value] else [],
                    if r.acceptRanges then ["bytes"] else [],
                    [if r.keepAlive then "keep-alive" else "close"],
                    if r.headers == [] then [] else [r.headers[0].value],
                    body)
  {
    hide ValuesOn, HeaderText, LeadingLines, TrailingLines, Lines, Decimal, StatusLine, CustomLines, WellFormed;
    LinesOfHeader(r, date);
    FirstLine(r, date);
    Names();
    NamedValues(r, date, "Content-Type");
    NamedValues(r, date, "Content-Length");
    NamedValues(r, date, "Last-Modified");
    NamedValues(r, date, "Accept-Ranges");
    NamedValues(r, date, "Connection");
    NamedValues(r, date, "Content-Range");
  }

  /** The date is there, once. */
  lemma DateSeen(r: Response, date: string)
    requires WellFormed(r, date) && |r.headers| <= 1
    requires forall i :: 0 <= i < |r.headers| ==> r.headers[i].name == "Content-Range"
    ensures ValuesOn(Lines(HeaderText(r, date)), "Date") == [date]
  {
    hide ValuesOn, HeaderText, LeadingLines, TrailingLines, Lines, Decimal, StatusLine, CustomLines, WellFormed;
    Names();
    NamedValues(r, date, "Date");
  }

  lemma FirstLine(r: Response, date: string)
    ensures (ResponseLines(r, date) + [""])[0] == StatusLine(r.status)
  {
  }
}
