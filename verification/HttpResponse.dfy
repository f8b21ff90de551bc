/** The response builder: setters and the header block they are serialised to. */
module HttpResponse {
  import opened Text

  datatype Status =
    | OK | PARTIAL_CONTENT | NOT_MODIFIED | BAD_REQUEST | FORBIDDEN | NOT_FOUND
    | METHOD_NOT_ALLOWED | RANGE_NOT_SATISFIABLE | INTERNAL_ERROR | NOT_IMPLEMENTED

  function Code(s: Status): (n: nat)
    ensures 100 <= n < 1000
    ensures n == 304 <==> s == NOT_MODIFIED
  {
    match s
    case OK => 200
    case PARTIAL_CONTENT => 206
    case NOT_MODIFIED => 304
    case BAD_REQUEST => 400
    case FORBIDDEN => 403
    case NOT_FOUND => 404
    case METHOD_NOT_ALLOWED => 405
    case RANGE_NOT_SATISFIABLE => 416
    case INTERNAL_ERROR => 500
    case NOT_IMPLEMENTED => 501
  }

  function Reason(s: Status): (r: string)
    ensures '\r' !in r
  {
    match s
    case OK => "OK"
    case PARTIAL_CONTENT => "Partial Content"
    case NOT_MODIFIED => "Not Modified"
    case BAD_REQUEST => "Bad Request"
    case FORBIDDEN => "Forbidden"
    case NOT_FOUND => "Not Found"
    case METHOD_NOT_ALLOWED => "Method Not Allowed"
    case RANGE_NOT_SATISFIABLE => "Range Not Satisfiable"
    case INTERNAL_ERROR => "Internal Server Error"
    case NOT_IMPLEMENTED => "Not Implemented"
  }

  datatype Custom = Custom(name: string, value: string)

  /** The fields of a response; dates are texts already formatted. */
  datatype Response = Response(
    status: Status, headers: seq<Custom>, body: string, contentType: string,
    contentLength: nat, hasContentLength: bool, acceptRanges: bool, keepAlive: bool,
    lastModified: Option<string>)

  const FRESH := Response(OK, [], "", "", 0, false, false, true, None)

  // ---- The header block ----

  function StatusLine(s: Status): string {
    "HTTP/1.1 " + Decimal(Code(s)) + " " + Reason(s)
  }

  function CustomLines(headers: seq<Custom>): seq<string> {
    if headers == [] then []
    else CustomLines(headers[..|headers| - 1])
         + [headers[|headers| - 1].name + ": " + headers[|headers| - 1].value]
  }

  /** The lines up to and including Content-Length. */
  function LeadingLines(r: Response, date: string): seq<string> {
    [StatusLine(r.status)] + ["Date: " + date]
    + (if r.status != NOT_MODIFIED && r.contentType != "" then ["Content-Type: " + r.contentType] else [])
    + (if r.status != NOT_MODIFIED && r.hasContentLength then ["Content-Length: " + Decimal(r.contentLength)] else [])
  }

  function TrailingLines(r: Response): seq<string> {
    (if r.lastModified.Some? then ["Last-Modified: " + r.lastModified.value] else [])
    + (if r.acceptRanges then ["Accept-Ranges: bytes"] else [])
    + ["Connection: " + if r.keepAlive then "keep-alive" else "close"]
    + CustomLines(r.headers)
  }

  function ResponseLines(r: Response, date: string): seq<string> {
    LeadingLines(r, date) + TrailingLines(r)
  }

  function HeaderText(r: Response, date: string): string {
    JoinLines(ResponseLines(r, date)) + CRLF
  }

  /** The page sent with an error status. */
  function ErrorBody(s: Status): (html: string)
    ensures html != ""
  {
    "<!DOCTYPE html><html><head><meta charset=\"utf-8\"><title>"
    + Decimal(Code(s)) + " " + Reason(s) + "</title></head><body><h1>"
    + Decimal(Code(s)) + " " + Reason(s) + "</h1></body></html>"
  }

  lemma AppendLine(lines: seq<string>, line: string)
    ensures JoinLines(lines + [line]) == JoinLines(lines) + line + CRLF
  {
    JoinLinesAppend(lines, [line]);
    assert [line][1..] == [];
    Assoc(JoinLines(lines), line, CRLF);
  }

  // ---- The builder object ----

  class HttpResponse {
    var status: Status
    var headers: seq<Custom>
    var body: string
    var contentType: string
    var contentLength: nat
    var hasContentLength: bool
    var acceptRanges: bool
    var keepAlive: bool
    var lastModified: Option<string>

    function View(): Response
      reads this
    {
      Response(status, headers, body, contentType, contentLength, hasContentLength,
               acceptRanges, keepAlive, lastModified)
    }

    constructor ()
      ensures View() == FRESH
    {
      status, headers, body, contentType := OK, [], "", "";
      contentLength, hasContentLength := 0, false;
      acceptRanges, keepAlive, lastModified := false, true, None;
    }

    /** A copy of a response. */
    constructor Of(r: Response)
      ensures View() == r
    {
      status, headers, body, contentType := r.status, r.headers, r.body, r.contentType;
      contentLength, hasContentLength := r.contentLength, r.hasContentLength;
      acceptRanges, keepAlive, lastModified := r.acceptRanges, r.keepAlive, r.lastModified;
    }

    method Reset()
      modifies this
      ensures View() == FRESH
    {
      status := OK;
      headers := [];
      body := "";
      contentType := "";
      contentLength := 0;
      hasContentLength := false;
      acceptRanges := false;
      keepAlive := true;
      lastModified := None;
    }

    method SetStatus(s: Status)
      modifies this
      ensures View() == old(View()).(status := s)
    {
      status := s;
    }

    method SetHeader(name: string, value: string)
      modifies this
      ensures View() == old(View()).(headers := old(headers) + [Custom(name, value)])
    {
      headers := headers + [Custom(name, value)];
    }

    method SetContentType(ct: string)
      modifies this
      ensures View() == old(View()).(contentType := ct)
    {
      contentType := ct;
    }

    method SetContentLength(len: nat)
      modifies this
      ensures View() == old(View()).(contentLength := len, hasContentLength := true)
    {
      contentLength := len;
      hasContentLength := true;
    }

    method SetLastModified(t: string)
      modifies this
      ensures View() == old(View()).(lastModified := Some(t))
    {
      lastModified := Some(t);
    }

    method SetAcceptRanges(v: bool)
      modifies this
      ensures View() == old(View()).(acceptRanges := v)
    {
      acceptRanges := v;
    }

    method SetKeepAlive(v: bool)
      modifies this
      ensures View() == old(View()).(keepAlive := v)
    {
      keepAlive := v;
    }

    method SetBody(b: string)
      modifies this
      ensures View() == old(View()).(body := b)
    {
      body := b;
    }

    method BuildHeaders(date: string) returns (h: string)
      ensures h == HeaderText(View(), date)
    {
      h := BuildLeading(date);
      ghost var lines := LeadingLines(View(), date);
      ghost var trailing: seq<string>;
      h, trailing := BuildTrailing(h);
      JoinLinesAppend(lines, trailing);
      h := h + CRLF;
    }

    /** One more header line. */
    method Append(soFar: string, ghost lines: seq<string>, line: string) returns (h: string, ghost more: seq<string>)
      requires soFar == JoinLines(lines)
      ensures more == lines + [line] && h == JoinLines(more)
    {
      AppendLine(lines, line);
      h, more := soFar + line + CRLF, lines + [line];
    }

    lemma NoLines()
      ensures JoinLines([]) == ""
    {
    }

    method BuildLeading(date: string) returns (h: string)
      ensures h == JoinLines(LeadingLines(View(), date))
    {
      NoLines();
      hide Reason, Code, Decimal, JoinLines;
      ghost var lines := [];
      h, lines := Append("", lines, "HTTP/1.1 " + Decimal(Code(status)) + " " + Reason(status));
      h, lines := Append(h, lines, "Date: " + date);
      if status != NOT_MODIFIED && contentType != "" {
        h, lines := Append(h, lines, "Content-Type: " + contentType);
      }
      if status != NOT_MODIFIED && hasContentLength {
        h, lines := Append(h, lines, "Content-Length: " + Decimal(contentLength));
      }
      assert lines == LeadingLines(View(), date);
    }

    method BuildTrailing(soFar: string) returns (h: string, ghost lines: seq<string>)
      ensures lines == TrailingLines(View())
      ensures h == soFar + JoinLines(lines)
    {
      hide JoinLines, CustomLines;
      NoLines();
      h, lines := "", [];
      if lastModified.Some? {
        h, lines := Append(h, lines, "Last-Modified: " + lastModified.value);
      }
      if acceptRanges {
        h, lines := Append(h, lines, "Accept-Ranges: bytes");
      }
      h, lines := Append(h, lines, "Connection: " + if keepAlive then "keep-alive" else "close");
      h, lines := BuildCustom(h, lines);
      h := soFar + h;
    }

    method BuildCustom(soFar: string, ghost standard: seq<string>) returns (h: string, ghost lines: seq<string>)
      requires soFar == JoinLines(standard)
      ensures lines == standard + CustomLines(headers) && h == JoinLines(lines)
    {
      h, lines := soFar, standard;
      for i := 0 to |headers|
        invariant lines == standard + CustomLines(headers[..i])
        invariant h == JoinLines(lines)
      {
        h, lines := Append(h, lines, headers[i].name + ": " + headers[i].value);
        assert headers[..i + 1][..i] == headers[..i];
      }
      assert headers[..|headers|] == headers;
    }
  }
}
