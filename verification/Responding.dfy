/** From a parsed request and what the file system says about its path to the response:
    status, headers, body or file part. */
module Responding {
  import opened Text
  import opened HttpRequest
  import opened HttpResponse
  import opened FileServer
  import opened SendingRuns
  import opened Client
  import ByteRange

  /** What the file system says about a normalised path. `notModified` is the outcome of
      the If-Modified-Since comparison. */
  datatype Lookup =
    | Missing
    | Denied
    | Listing(html: string)
    | Found(content: string, mime: string, modified: string, notModified: bool)

  /** The response, and the part of the file that goes with it, if any. */
  datatype Answer = Answer(response: Response, isHead: bool, part: Option<FilePart>)

  const HTML := "text/html; charset=utf-8"

  function KeepAlive(r: Request): bool {
    var connection := HeaderValue(r.headers, "connection");
    if r.version == "HTTP/1.1" then connection != "close" else connection == "keep-alive"
  }

  /** A response whose body is held in memory. */
  function PageResponse(status: Status, html: string, keepAlive: bool): Response {
    FRESH.(status := status, body := html, contentType := HTML,
           contentLength := |html|, hasContentLength := true, keepAlive := keepAlive)
  }

  function ErrorResponse(status: Status, keepAlive: bool): Response {
    PageResponse(status, ErrorBody(status), keepAlive)
  }

  function NotModifiedResponse(modified: string, keepAlive: bool): Response {
    FRESH.(status := NOT_MODIFIED, lastModified := Some(modified), keepAlive := keepAlive)
  }

  function FileResponse(size: nat, mime: string, modified: string, range: Option<(int, int)>, keepAlive: bool): Response
    requires range.Some? ==> 0 <= range.value.0 <= range.value.1 < size
  {
    var ok := FRESH.(status := OK, contentType := mime, contentLength := size, hasContentLength := true,
                     acceptRanges := true, keepAlive := keepAlive, lastModified := Some(modified));
    match range
    case None => ok
    case Some((a, b)) =>
      ok.(status := PARTIAL_CONTENT, contentLength := b - a + 1,
          headers := [Custom("Content-Range", ByteRange.ContentRange(a, b, size))])
  }

  function FilePartOf(content: string, range: Option<(int, int)>): FilePart
    requires range.Some? ==> 0 <= range.value.0 <= range.value.1 < |content|
  {
    match range
    case None => FilePart(content, 0, |content| - 1)
    case Some((a, b)) => FilePart(content, a, b)
  }

  function FileAnswer(r: Request, content: string, mime: string, modified: string): Answer {
    var range := ByteRange.ParseRange(HeaderValue(r.headers, "range"), |content|);
    var response := FileResponse(|content|, mime, modified, range, KeepAlive(r));
    Answer(response, r.verb == HEAD, Some(FilePartOf(content, range)))
  }

  /** `prepare_response`. */
  function AnswerTo(r: Request, lookup: Lookup): Answer {
    var isHead, keep := r.verb == HEAD, KeepAlive(r);
    if r.verb == UNKNOWN then Answer(ErrorResponse(NOT_IMPLEMENTED, keep), isHead, None)
    else if NormalizedText(r.path) == "" then Answer(ErrorResponse(BAD_REQUEST, keep), isHead, None)
    else AnswerFor(r, lookup)
  }

  function AnswerFor(r: Request, lookup: Lookup): Answer {
    var isHead, keep := r.verb == HEAD, KeepAlive(r);
    match lookup
    case Missing => Answer(ErrorResponse(NOT_FOUND, keep), isHead, None)
    case Denied => Answer(ErrorResponse(FORBIDDEN, keep), isHead, None)
    case Listing(html) => Answer(PageResponse(OK, html, keep), isHead, None)
    case Found(content, mime, modified, notModified) =>
      if notModified then Answer(NotModifiedResponse(modified, keep), isHead, None)
      else FileAnswer(r, content, mime, modified)
  }

  function PlanOf(a: Answer, date: string): Plan {
    Plan(HeaderText(a.response, date), a.response.body, a.isHead, a.part)
  }

  /** Every answer can be handed to the sending half: the part lies inside the file. */
  lemma AnswerFits(r: Request, lookup: Lookup, date: string)
    ensures PlanFits(PlanOf(AnswerTo(r, lookup), date))
  {
    HeaderTextNotEmpty(AnswerTo(r, lookup).response, date);
    if lookup.Found? {
      var range := ByteRange.ParseRange(HeaderValue(r.headers, "range"), |lookup.content|);
      if range.Some? {
        ByteRange.ParsedIntervalInFile(HeaderValue(r.headers, "range"), |lookup.content|);
      }
    }
  }

  /** The piece of a file that a ranged GET asks for is what its response sends. */
  lemma PieceIsServed(r: Request, lookup: Lookup, date: string, k: nat, a: nat)
    requires r.verb == GET && NormalizedText(r.path) != "" && lookup.Found? && !lookup.notModified
    requires k > 0 && a < |lookup.content|
    requires HeaderValue(r.headers, "range") == "bytes=" + ByteRange.IntervalText(a, a + k - 1)
    ensures PlanFits(PlanOf(AnswerTo(r, lookup), date))
    ensures Payload(PlanOf(AnswerTo(r, lookup), date)) == ByteRange.PieceBody(lookup.content, k, a)
  {
    hide HeaderText, FileResponse, ByteRange.ParseRange, NormalizedText;
    AnswerFits(r, lookup, date);
    var piece := ByteRange.Piece(|lookup.content|, k, a);
    assert FileAnswer(r, lookup.content, lookup.mime, lookup.modified).part == Some(FilePartOf(lookup.content, piece));
  }

  // ---- Every answer is framed truthfully ----

  /** The opaque texts (dates, media types) are single lines. */
  ghost predicate PlainTexts(lookup: Lookup, date: string) {
    && OneLine("Date: " + date)
    && (lookup.Found? ==> OneLine("Content-Type: " + lookup.mime) && OneLine("Last-Modified: " + lookup.modified))
  }

  /** The response can be cut out of a stream: its headers hold no stray line break and
      the length they give is the length of what is sent. */
  ghost predicate Framed(a: Answer, date: string) {
    && WellFormed(a.response, date)
    && PlanFits(PlanOf(a, date))
    && |Payload(PlanOf(a, date))| == BodyBytes(a.response, a.isHead)
  }

  lemma HeaderTextNotEmpty(r: Response, date: string)
    ensures HeaderText(r, date) != ""
  {
  }

  lemma PageFramed(status: Status, html: string, keep: bool, isHead: bool, date: string)
    requires status != NOT_MODIFIED && OneLine("Date: " + date)
    ensures Framed(Answer(PageResponse(status, html, keep), isHead, None), date)
  {
    hide HeaderText, OneLine;
    NoCarriageReturn("Content-Type: " + HTML);
    HeaderTextNotEmpty(PageResponse(status, html, keep), date);
  }

  lemma NotModifiedFramed(modified: string, keep: bool, isHead: bool, date: string)
    requires OneLine("Date: " + date) && OneLine("Last-Modified: " + modified)
    ensures Framed(Answer(NotModifiedResponse(modified, keep), isHead, None), date)
  {
    NoCarriageReturn("Content-Type: ");
    assert "Content-Type: " + "" == "Content-Type: ";
    HeaderTextNotEmpty(NotModifiedResponse(modified, keep), date);
  }

  lemma ContentRangeIsOneLine(a: nat, b: nat, size: nat)
    ensures OneLine("Content-Range" + ": " + ByteRange.ContentRange(a, b, size))
  {
    NoCarriageReturn("Content-Range" + ": " + ByteRange.ContentRange(a, b, size));
  }

  lemma FileFramed(r: Request, content: string, mime: string, modified: string, date: string)
    requires OneLine("Date: " + date) && OneLine("Content-Type: " + mime) && OneLine("Last-Modified: " + modified)
    ensures Framed(FileAnswer(r, content, mime, modified), date)
  {
    var a := FileAnswer(r, content, mime, modified);
    var range := ByteRange.ParseRange(HeaderValue(r.headers, "range"), |content|);
    HeaderTextNotEmpty(a.response, date);
    if range.Some? {
      ContentRangeIsOneLine(range.value.0, range.value.1, |content|);
    }
  }

  lemma LookupFramed(r: Request, lookup: Lookup, date: string)
    requires PlainTexts(lookup, date)
    ensures Framed(AnswerFor(r, lookup), date)
  {
    hide Framed, ErrorBody, HeaderText;
    var keep, isHead := KeepAlive(r), r.verb == HEAD;
    match lookup
    case Missing => PageFramed(NOT_FOUND, ErrorBody(NOT_FOUND), keep, isHead, date);
    case Denied => PageFramed(FORBIDDEN, ErrorBody(FORBIDDEN), keep, isHead, date);
    case Listing(html) => PageFramed(OK, html, keep, isHead, date);
    case Found(content, mime, modified, notModified) =>
      if notModified {
        NotModifiedFramed(modified, keep, isHead, date);
      } else {
        FileFramed(r, content, mime, modified, date);
      }
  }

  /** Whatever the request and the file system say, Content-Length is the number of body
      bytes sent, and 304 and HEAD send none. */
  lemma AnswerFramed(r: Request, lookup: Lookup, date: string)
    requires PlainTexts(lookup, date)
    ensures Framed(AnswerTo(r, lookup), date)
  {
    hide Framed, ErrorBody, HeaderText;
    if r.verb == UNKNOWN {
      PageFramed(NOT_IMPLEMENTED, ErrorBody(NOT_IMPLEMENTED), KeepAlive(r), false, date);
    } else if NormalizedText(r.path) == "" {
      PageFramed(BAD_REQUEST, ErrorBody(BAD_REQUEST), KeepAlive(r), r.verb == HEAD, date);
    } else {
      LookupFramed(r, lookup, date);
    }
  }
}
