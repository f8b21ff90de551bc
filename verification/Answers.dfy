/** What a client sees of the answer to its request, case by case: the paths that are
    refused, the pages, the files and the parts of files. */
module Answers {
  import opened Text
  import opened HttpRequest
  import opened HttpResponse
  import opened SendingRuns
  import opened Client
  import opened Fields
  import opened ByteRange
  import opened Responding
  import FS = FileServer
  import PP = PathProperties

  // ---- What the client asked ----

  /** The value of the first header with a (lower-case) name, "" when there is none. */
  ghost predicate Asks(r: Request, name: string, value: string) {
    if exists i: nat :: i < |r.headers| && FirstNamed(r.headers, name, i)
    then exists i: nat :: i < |r.headers| && FirstNamed(r.headers, name, i) && r.headers[i].value == value
    else value == ""
  }

  lemma FirstOf(headers: seq<Header>, name: string) returns (i: nat)
    ensures i <= |headers| && (i < |headers| ==> FirstNamed(headers, name, i))
    ensures i == |headers| ==> forall j :: 0 <= j < |headers| ==> headers[j].name != name
  {
    i := 0;
    while i < |headers| && headers[i].name != name
      invariant i <= |headers| && forall j :: 0 <= j < i ==> headers[j].name != name
    {
      i := i + 1;
    }
  }

  lemma AsksValue(r: Request, name: string, value: string)
    ensures Asks(r, name, value) <==> HeaderValue(r.headers, name) == value
  {
    var i := FirstOf(r.headers, name);
    if exists j: nat :: j < |r.headers| && FirstNamed(r.headers, name, j) {
      var j: nat :| j < |r.headers| && FirstNamed(r.headers, name, j);
      assert r.headers[j].name == name;
    }
  }

  /** The decoded path holds a control character other than the tab, some prefix of its
      segments has more ".." than others, or a segment that no later ".." cancels starts
      with a dot. */
  ghost predicate Rejected(path: string) {
    var d := FS.Decode(path);
    var segs := Split(d, '/');
    var kept := PP.Survivors(segs, |segs|, |segs|);
    || (exists i :: 0 <= i < |d| && (d[i] as int) < 32 && d[i] != '\t')
    || PP.Climbs(segs)
    || exists i :: 0 <= i < |kept| && "." <= kept[i]
  }

  lemma RejectedIff(path: string)
    ensures Rejected(path) <==> FS.NormalizedText(path) == ""
  {
    hide FS.Decode, FS.NormalizedText, PP.Climbs, PP.Survivors, PP.Canonical, FS.PathOf, Split;
    PP.NormalizeMeaning(path);
    var segs := Split(FS.Decode(path), '/');
    var kept := PP.Survivors(segs, |segs|, |segs|);
    forall i | 0 <= i < |kept| ensures "." <= kept[i] <==> FS.DotLed(kept[i]) {
      assert kept[i] != "" ==> kept[i][..1] == [kept[i][0]];
    }
  }

  /** Whether the client wants the connection kept: by default in HTTP/1.1, otherwise on
      request. */
  ghost predicate Persists(r: Request) {
    if r.version == "HTTP/1.1" then !Asks(r, "connection", "close") else Asks(r, "connection", "keep-alive")
  }

  // ---- What it sees ----

  ghost function Connection(r: Request): seq<string> {
    [if Persists(r) then "keep-alive" else "close"]
  }

  function Body(r: Request, body: string): string {
    if r.verb == HEAD then "" else body
  }

  /** A page. After HEAD the same header comes without the body. */
  ghost function PageSeen(r: Request, code: string, reason: string, html: string): Seen {
    Seen(StatusText(code, reason), ["text/html; charset=utf-8"], [Decimal(|html|)], [], [], Connection(r), [],
         Body(r, html))
  }

  function ErrorHtml(code: string, reason: string): string {
    "<!DOCTYPE html><html><head><meta charset=\"utf-8\"><title>" + code + " " + reason
    + "</title></head><body><h1>" + code + " " + reason + "</h1></body></html>"
  }

  ghost function ErrorSeen(r: Request, code: string, reason: string): Seen {
    PageSeen(r, code, reason, ErrorHtml(code, reason))
  }

  /** A file, or the part of it that a Content-Range names. */
  ghost function FileSeen(r: Request, code: string, reason: string, file: Lookup, length: nat, range: seq<string>,
                          body: string): Seen
    requires file.Found?
  {
    Seen(StatusText(code, reason), if file.mime == "" then [] else [file.mime], [Decimal(length)], [file.modified],
         ["bytes"], Connection(r), range, Body(r, body))
  }

  ghost function AnswerSeen(r: Request, lookup: Lookup, date: string): Seen {
    AnswerFits(r, lookup, date);
    SeenOf(PlanOf(AnswerTo(r, lookup), date))
  }

  lemma PersistsIff(r: Request)
    ensures Persists(r) <==> KeepAlive(r)
  {
    hide HeaderValue;
    AsksValue(r, "connection", "close");
    AsksValue(r, "connection", "keep-alive");
  }

  lemma PageIsSeen(r: Request, lookup: Lookup, date: string, status: Status, code: string, reason: string, html: string)
    requires OneLine("Date: " + date) && status != NOT_MODIFIED && Called(status, code, reason)
    requires AnswerTo(r, lookup) == Answer(PageResponse(status, html, KeepAlive(r)), r.verb == HEAD, None)
    ensures AnswerSeen(r, lookup, date) == PageSeen(r, code, reason, html)
  {
    hide AnswerTo, HeaderText, StatusLine, StatusText, SeenIn, Decimal, WellFormed, KeepAlive, Persists, Called;
    var response := PageResponse(status, html, KeepAlive(r));
    PersistsIff(r);
    CalledLine(status, code, reason);
    PageFramed(status, html, KeepAlive(r), r.verb == HEAD, date);
    HeaderSeen(response, date, Body(r, html));
  }

  lemma ErrorIsSeen(r: Request, lookup: Lookup, date: string, status: Status, code: string, reason: string)
    requires OneLine("Date: " + date) && status != NOT_MODIFIED && Called(status, code, reason)
    requires AnswerTo(r, lookup) == Answer(ErrorResponse(status, KeepAlive(r)), r.verb == HEAD, None)
    ensures AnswerSeen(r, lookup, date) == ErrorSeen(r, code, reason)
  {
    hide AnswerTo, HeaderText, SeenIn, WellFormed, KeepAlive, Persists, AnswerSeen, PageSeen, Decimal, Code, Reason;
    PageIsSeen(r, lookup, date, status, code, reason, ErrorHtml(code, reason));
  }

  lemma ErrorHtmlIs(status: Status, code: string, reason: string)
    requires Called(status, code, reason)
    ensures ErrorBody(status) == ErrorHtml(code, reason)
  {
    hide Decimal, Code, Reason;
  }

  // ---- Refusals and pages ----

  /** A path that is rejected gets 400 and the page for it whatever the file system says, and
      no file with it. */
  lemma RejectedIsSeen(r: Request, lookup: Lookup, date: string)
    requires OneLine("Date: " + date) && r.verb != UNKNOWN && Rejected(r.path)
    ensures AnswerSeen(r, lookup, date) == ErrorSeen(r, "400", "Bad Request")
    ensures AnswerTo(r, lookup).part == None
  {
    hide Rejected, FS.NormalizedText, AnswerSeen, ErrorSeen, Called, ErrorResponse, AnswerFor, KeepAlive;
    StatusTable();
    RejectedIff(r.path);
    ErrorIsSeen(r, lookup, date, BAD_REQUEST, "400", "Bad Request");
  }

  /** Any other path is answered by what the file system says: 404, 403, the listing, or 304
      without a body, all without a file. */
  lemma PageOrRefusalIsSeen(r: Request, lookup: Lookup, date: string)
    requires PlainTexts(lookup, date) && r.verb != UNKNOWN && !Rejected(r.path)
    requires lookup.Found? ==> lookup.notModified
    ensures AnswerTo(r, lookup).part == None
    ensures AnswerSeen(r, lookup, date)
            == match lookup
               case Missing => ErrorSeen(r, "404", "Not Found")
               case Denied => ErrorSeen(r, "403", "Forbidden")
               case Listing(html) => PageSeen(r, "200", "OK", html)
               case Found(_, _, modified, _) =>
                 Seen(StatusText("304", "Not Modified"), [], [], [modified], [], Connection(r), [], "")
  {
    hide Rejected, FS.NormalizedText, AnswerSeen, ErrorSeen, PageSeen, Called, PageResponse, ErrorBody, KeepAlive;
    StatusTable();
    RejectedIff(r.path);
    match lookup
    case Missing => ErrorIsSeen(r, lookup, date, NOT_FOUND, "404", "Not Found");
    case Denied => ErrorIsSeen(r, lookup, date, FORBIDDEN, "403", "Forbidden");
    case Listing(html) => PageIsSeen(r, lookup, date, OK, "200", "OK", html);
    case Found(_, _, modified, _) => NotModifiedIsSeen(r, lookup, date);
  }

  lemma NotModifiedIsSeen(r: Request, lookup: Lookup, date: string)
    requires PlainTexts(lookup, date) && lookup.Found? && Called(NOT_MODIFIED, "304", "Not Modified")
    requires AnswerTo(r, lookup) == Answer(NotModifiedResponse(lookup.modified, KeepAlive(r)), r.verb == HEAD, None)
    ensures AnswerSeen(r, lookup, date)
            == Seen(StatusText("304", "Not Modified"), [], [], [lookup.modified], [], Connection(r), [], "")
  {
    hide AnswerTo, HeaderText, StatusLine, StatusText, SeenIn, Decimal, WellFormed, KeepAlive, Persists, Called;
    PersistsIff(r);
    CalledLine(NOT_MODIFIED, "304", "Not Modified");
    NotModifiedFramed(lookup.modified, KeepAlive(r), r.verb == HEAD, date);
    HeaderSeen(NotModifiedResponse(lookup.modified, KeepAlive(r)), date, "");
  }

  /** A method that is not served gets 501. */
  lemma UnknownIsSeen(r: Request, lookup: Lookup, date: string)
    requires OneLine("Date: " + date) && r.verb == UNKNOWN
    ensures AnswerSeen(r, lookup, date) == ErrorSeen(r, "501", "Not Implemented")
  {
    hide AnswerSeen, ErrorSeen, Called, ErrorResponse, KeepAlive;
    StatusTable();
    ErrorIsSeen(r, lookup, date, NOT_IMPLEMENTED, "501", "Not Implemented");
  }

  // ---- Files and parts of files ----

  /** The answer with a file, for the interval that the Range header gives. */
  lemma FileIsSeen(r: Request, file: Lookup, date: string, range: Option<(int, int)>)
    requires PlainTexts(file, date) && r.verb != UNKNOWN && !Rejected(r.path) && file.Found? && !file.notModified
    requires range == ParseRange(HeaderValue(r.headers, "range"), |file.content|)
    ensures range.Some? ==> 0 <= range.value.0 <= range.value.1 < |file.content|
    ensures AnswerSeen(r, file, date)
            == match range
               case None => FileSeen(r, "200", "OK", file, |file.content|, [], file.content)
               case Some((a, b)) =>
                 FileSeen(r, "206", "Partial Content", file, b - a + 1, [ContentRange(a, b, |file.content|)],
                          file.content[a..b + 1])
    ensures AnswerTo(r, file).part.Some?
  {
    hide FS.NormalizedText, Rejected, HeaderText, StatusLine, StatusText, SeenIn, Decimal, WellFormed, KeepAlive;
    hide Persists, Called, ParseRange, HeaderValue, ContentRange, FileResponse, FilePartOf;
    RejectedIff(r.path);
    if range.Some? {
      ParsedIntervalInFile(HeaderValue(r.headers, "range"), |file.content|);
    }
    FileFramed(r, file.content, file.mime, file.modified, date);
    var response := FileResponse(|file.content|, file.mime, file.modified, range, KeepAlive(r));
    PartIsSeen(r, file, date, range, response);
  }

  lemma PartIsSeen(r: Request, file: Lookup, date: string, range: Option<(int, int)>, response: Response)
    requires file.Found? && (range.Some? ==> 0 <= range.value.0 <= range.value.1 < |file.content|)
    requires response == FileResponse(|file.content|, file.mime, file.modified, range, KeepAlive(r))
    requires WellFormed(response, date)
    ensures var plan := Plan(HeaderText(response, date), response.body, r.verb == HEAD,
                             Some(FilePartOf(file.content, range)));
            PlanFits(plan)
            && SeenOf(plan)
               == match range
                  case None => FileSeen(r, "200", "OK", file, |file.content|, [], file.content)
                  case Some((a, b)) =>
                    FileSeen(r, "206", "Partial Content", file, b - a + 1, [ContentRange(a, b, |file.content|)],
                             file.content[a..b + 1])
  {
    hide HeaderText, StatusLine, StatusText, SeenIn, Decimal, WellFormed, KeepAlive, Persists, Called, ContentRange;
    StatusTable();
    CalledLine(OK, "200", "OK");
    CalledLine(PARTIAL_CONTENT, "206", "Partial Content");
    PersistsIff(r);
    HeaderTextNotEmpty(response, date);
    var plan := Plan(HeaderText(response, date), response.body, r.verb == HEAD, Some(FilePartOf(file.content, range)));
    HeaderSeen(response, date, Payload(plan));
  }

  /** The interval, as a client reads it from the response. */
  ghost predicate Reports(seen: Seen, a: nat, b: nat, size: nat) {
    |seen.contentRange| == 1 && ReadContentRange(seen.contentRange[0]) == Some((a, b, size))
  }

  /** The response holds the part of the file that a range selects: the status, the interval
      as the client reads it, the length and the bytes all say so, and asking for the interval
      so read gives it again. */
  ghost predicate HoldsPart(seen: Seen, r: Request, spec: RangeSpec, file: Lookup, a: nat, b: nat)
    requires file.Found?
  {
    && a <= b < |file.content| && (forall p :: Selects(spec, |file.content|, p) <==> a <= p <= b)
    && Reports(seen, a, b, |file.content|)
    && seen == FileSeen(r, "206", "Partial Content", file, b - a + 1, seen.contentRange, file.content[a..b + 1])
    && ParseRange("bytes=" + (Decimal(a) + "-" + Decimal(b)), |file.content|) == Some((a, b))
  }

  lemma SelectsSome(spec: RangeSpec, size: nat)
    ensures Resolve(spec, size) == None <==> forall p :: !Selects(spec, size, p)
  {
    ResolveIsSelection(spec, size);
    match Resolve(spec, size)
    case None =>
    case Some((a, b)) => assert Selects(spec, size, a);
  }

  /** A Range header that spells a range: when it selects any position, the response is the
      part selected; when it selects none, it is the whole file. */
  lemma RangeIsSeen(r: Request, file: Lookup, date: string, hdr: string, spec: RangeSpec)
    requires PlainTexts(file, date) && r.verb != UNKNOWN && !Rejected(r.path) && file.Found? && !file.notModified
    requires Asks(r, "range", hdr) && Spells(hdr, spec)
    ensures var seen := AnswerSeen(r, file, date);
            if exists p :: Selects(spec, |file.content|, p)
            then exists a: nat, b: nat :: HoldsPart(seen, r, spec, file, a, b)
            else seen == FileSeen(r, "200", "OK", file, |file.content|, [], file.content)
  {
    hide *;
    AsksValue(r, "range", hdr);
    SyntaxIffSpelled(hdr, spec);
    ParseIsResolve(hdr, spec, |file.content|);
    SelectsSome(spec, |file.content|);
    var range := ParseRange(hdr, |file.content|);
    FileIsSeen(r, file, date, range);
    if range.Some? {
      var (a, b) := range.value;
      ResolveIsSelection(spec, |file.content|);
      ReportedIntervalIsStable(hdr, |file.content|);
      PartIsHeld(AnswerSeen(r, file, date), r, spec, file, a, b);
    }
  }

  lemma ParseIsResolve(hdr: string, spec: RangeSpec, size: nat)
    requires Syntax(hdr) == Some(spec)
    ensures ParseRange(hdr, size) == Resolve(spec, size)
  {
  }

  lemma PartIsHeld(seen: Seen, r: Request, spec: RangeSpec, file: Lookup, a: nat, b: nat)
    requires file.Found? && a <= b < |file.content|
    requires forall p :: Selects(spec, |file.content|, p) <==> a <= p <= b
    requires ReadContentRange(ContentRange(a, b, |file.content|)) == Some((a, b, |file.content|))
    requires seen == FileSeen(r, "206", "Partial Content", file, b - a + 1, [ContentRange(a, b, |file.content|)],
                              file.content[a..b + 1])
    requires ParseRange("bytes=" + (Decimal(a) + "-" + Decimal(b)), |file.content|) == Some((a, b))
    ensures HoldsPart(seen, r, spec, file, a, b)
  {
    hide ContentRange, ReadContentRange, Selects, Connection, Body, StatusText, Decimal, ParseRange;
  }

  /** Without a Range header, or with one that spells no range, it is the whole file. */
  lemma NoRangeIsSeen(r: Request, file: Lookup, date: string, hdr: string)
    requires PlainTexts(file, date) && r.verb != UNKNOWN && !Rejected(r.path) && file.Found? && !file.notModified
    requires Asks(r, "range", hdr) && forall spec :: !Spells(hdr, spec)
    ensures AnswerSeen(r, file, date) == FileSeen(r, "200", "OK", file, |file.content|, [], file.content)
  {
    hide Rejected, AnswerSeen, FileSeen, Asks, Spells, Syntax;
    AsksValue(r, "range", hdr);
    if Syntax(hdr).Some? {
      SyntaxIffSpelled(hdr, Syntax(hdr).value);
    }
    FileIsSeen(r, file, date, ParseRange(hdr, |file.content|));
  }

  // ---- All answers ----

  ghost predicate SelectsAny(spec: RangeSpec, size: nat) {
    exists p :: Selects(spec, size, p)
  }

  /** What a client may see of a file: the part that its Range header selects, if it selects
      any, and otherwise the whole. */
  ghost predicate FileFitting(r: Request, file: Lookup, seen: Seen)
    requires file.Found?
  {
    && (forall hdr, spec :: Asks(r, "range", hdr) && Spells(hdr, spec) && SelectsAny(spec, |file.content|) ==>
          exists a: nat, b: nat :: HoldsPart(seen, r, spec, file, a, b))
    && ((forall hdr, spec :: Asks(r, "range", hdr) && Spells(hdr, spec) ==> !SelectsAny(spec, |file.content|)) ==>
          seen == FileSeen(r, "200", "OK", file, |file.content|, [], file.content))
  }

  /** What it may see for any request, by what the file system says about its path. */
  ghost predicate Fitting(r: Request, lookup: Lookup, seen: Seen) {
    if r.verb == UNKNOWN then seen == ErrorSeen(r, "501", "Not Implemented")
    else if Rejected(r.path) then seen == ErrorSeen(r, "400", "Bad Request")
    else
      match lookup
      case Missing => seen == ErrorSeen(r, "404", "Not Found")
      case Denied => seen == ErrorSeen(r, "403", "Forbidden")
      case Listing(html) => seen == PageSeen(r, "200", "OK", html)
      case Found(_, _, modified, notModified) =>
        if notModified then
          seen == Seen(StatusText("304", "Not Modified"), [], [], [modified], [], Connection(r), [], "")
        else FileFitting(r, lookup, seen)
  }

  lemma FileIsFitting(r: Request, file: Lookup, date: string)
    requires PlainTexts(file, date) && r.verb != UNKNOWN && !Rejected(r.path) && file.Found? && !file.notModified
    ensures FileFitting(r, file, AnswerSeen(r, file, date))
  {
    hide Rejected, AnswerSeen, FileSeen, Asks, Spells, Selects, HoldsPart, PlainTexts;
    var seen := AnswerSeen(r, file, date);
    forall hdr, spec | Asks(r, "range", hdr) && Spells(hdr, spec)
      ensures if SelectsAny(spec, |file.content|) then exists a: nat, b: nat :: HoldsPart(seen, r, spec, file, a, b)
              else seen == FileSeen(r, "200", "OK", file, |file.content|, [], file.content)
    {
      RangeIsSeen(r, file, date, hdr, spec);
    }
    var hdr := HeaderValue(r.headers, "range");
    AsksValue(r, "range", hdr);
    if forall spec :: !Spells(hdr, spec) {
      NoRangeIsSeen(r, file, date, hdr);
    }
  }

  /** The answer to any request is what the tables say. */
  lemma AnswerIsFitting(r: Request, lookup: Lookup, date: string)
    requires PlainTexts(lookup, date)
    ensures Fitting(r, lookup, AnswerSeen(r, lookup, date))
  {
    hide Rejected, AnswerSeen, ErrorSeen, PageSeen, FileFitting;
    if r.verb == UNKNOWN {
      UnknownIsSeen(r, lookup, date);
    } else if Rejected(r.path) {
      RejectedIsSeen(r, lookup, date);
    } else if lookup.Found? && !lookup.notModified {
      FileIsFitting(r, lookup, date);
    } else {
      PageOrRefusalIsSeen(r, lookup, date);
    }
  }
}
