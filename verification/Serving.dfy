/** Which wakeups answer a request, and what a client sees of the answer: rejected paths, ranges,
    methods that are not served, texts that are no request, and the pages about TLS. */
module Serving {
  import opened Text
  import opened States
  import opened Sending
  import opened SendingRuns
  import opened Client
  import opened Fields
  import opened Answers
  import opened Responding
  import opened Wakeups
  import opened Stream
  import opened Session
  import ByteRange
  import HttpRequest
  import HttpResponse
  import Reading
  import RP = RequestProperties
  import C = Connection

  // ---- The wakeups that reply ----

  /** The connection as a reply finds it. */
  function AtRequest(s: Sender): Sender
    requires s.state == PARSING || s.state == READING || s.state == KEEP_ALIVE
  {
    if s.state == KEEP_ALIVE then Cleared(s).(state := PARSING) else s.(state := PARSING)
  }

  /** A wakeup that replies does so to the text it leaves in the buffer. */
  lemma ReplyIs(s: Sender, buf: string, tlsAvailable: bool, w: Awakening)
    requires Wakes(s, buf, tlsAvailable, w) && C.Replies(s, buf, w.io)
    ensures Outcome(w.after, w.want) == C.Reply(AtRequest(s), w.buf, w.served, w.io)
    ensures Opens(s, buf, tlsAvailable, w) == OpensOn(AtRequest(s), w.buf, w.served)
  {
    hide C.Reply, OpensOn;
  }

  lemma StepKeepsFile(s: Sender, io: SendIo)
    requires Sends(s)
    ensures Step(s, io).next.file in {s.file, None}
  {
    hide WriteResult, FileBytes, Resize, Min;
    if s.state != SENDING_BODY {
      var h := HeadersPart(s, io.header).next;
      assert h.file in {s.file, None};
      if h.state == SENDING_BODY {
        BodyKeepsFile(h, io);
      }
    } else {
      BodyKeepsFile(s, io);
    }
  }

  lemma BodyKeepsFile(s: Sender, io: SendIo)
    requires s.state == SENDING_BODY
    ensures SendBody(s, io).next.file in {s.file, None}
  {
    hide WriteResult, FileBytes, Resize, Min;
  }

  predicate Served(text: string) {
    HttpRequest.ParseText(text).ok && HttpRequest.ParseText(text).request.rawMethod in {"GET", "HEAD"}
  }

  lemma ServedVerb(text: string)
    ensures Served(text) ==>
              HttpRequest.ParseText(text).ok && HttpRequest.ParseText(text).request.verb != HttpRequest.UNKNOWN
    ensures HttpRequest.ParseText(text).ok && !Served(text) ==>
              HttpRequest.ParseText(text).request.verb == HttpRequest.UNKNOWN
  {
    hide HttpRequest.ParseText;
    if HttpRequest.ParseText(text).ok {
      RP.VerbMeaning(text);
    }
  }

  /** A GET or HEAD request is told its answer once the header is on its way, and is started
      over until then. What the client sees is the answer to this request. */
  lemma ReplySeen(s: Sender, buf: string, tlsAvailable: bool, w: Awakening)
    requires Wakes(s, buf, tlsAvailable, w) && C.Replies(s, buf, w.io) && Served(w.buf)
    ensures var r := HttpRequest.ParseText(w.buf).request;
            var reply := NewReply(s, buf, tlsAvailable, w);
            && (reply == None <==> w.after.state == PARSING)
            && (reply.Some? ==>
                  && reply.value == Told(AnswerTo(r, w.served), w.io.date, w.buf)
                  && PlanFits(PlanTold(reply.value))
                  && SeenOf(PlanTold(reply.value)) == AnswerSeen(r, w.served, w.io.date))
            && (AnswerTo(r, w.served).part == None ==> w.after.file in {AtRequest(s).file, None})
  {
    hide HttpRequest.ParseText, AnswerTo, SendHeaders, HttpResponse.HeaderText, SeenIn, C.Replies, Served, Wakes;
    ServedVerb(w.buf);
    ReplyIs(s, buf, tlsAvailable, w);
    var r := HttpRequest.ParseText(w.buf).request;
    AnswerFits(r, w.served, w.io.date);
    StepKeepsFile(Prepared(AtRequest(s), PlanOf(AnswerTo(r, w.served), w.io.date)), w.io.send);
  }

  // ---- Rejected paths ----

  /** A complete GET or HEAD for a path that is rejected: whatever the file system says, the
      client is told 400 with the page for it, and no file is opened. */
  lemma RejectedPathTold(s: Sender, buf: string, tlsAvailable: bool, w: Awakening)
    requires Wakes(s, buf, tlsAvailable, w) && C.Replies(s, buf, w.io) && OneLine("Date: " + w.io.date)
    requires Served(w.buf) && Rejected(HttpRequest.ParseText(w.buf).request.path)
    ensures var r := HttpRequest.ParseText(w.buf).request;
            var reply := NewReply(s, buf, tlsAvailable, w);
            && (reply == None <==> w.after.state == PARSING)
            && (reply.Some? ==>
                  && reply.value.text == w.buf && reply.value.answer.part == None
                  && PlanFits(PlanTold(reply.value))
                  && SeenOf(PlanTold(reply.value)) == ErrorSeen(r, "400", "Bad Request"))
    ensures w.after.file in {AtRequest(s).file, None}
  {
    hide *;
    var r := HttpRequest.ParseText(w.buf).request;
    ReplySeen(s, buf, tlsAvailable, w);
    ServedVerb(w.buf);
    RejectedIsSeen(r, w.served, w.io.date);
  }

  // ---- Parts of files ----

  /** A complete GET or HEAD with a Range header that spells a range, for a file that is
      there: the response told, if any, holds the part selected, as the client reads it; when
      nothing is selected it is the whole file. */
  lemma RangeTold(s: Sender, buf: string, tlsAvailable: bool, w: Awakening, hdr: string, spec: ByteRange.RangeSpec)
    requires Wakes(s, buf, tlsAvailable, w) && C.Replies(s, buf, w.io) && PlainTexts(w.served, w.io.date)
    requires Served(w.buf) && !Rejected(HttpRequest.ParseText(w.buf).request.path)
    requires w.served.Found? && !w.served.notModified
    requires Asks(HttpRequest.ParseText(w.buf).request, "range", hdr) && ByteRange.Spells(hdr, spec)
    ensures var r := HttpRequest.ParseText(w.buf).request;
            var reply := NewReply(s, buf, tlsAvailable, w);
            && (reply == None <==> w.after.state == PARSING)
            && (reply.Some? ==>
                  && reply.value.text == w.buf && PlanFits(PlanTold(reply.value))
                  && var seen := SeenOf(PlanTold(reply.value));
                     if exists p :: ByteRange.Selects(spec, |w.served.content|, p)
                     then exists a: nat, b: nat :: HoldsPart(seen, r, spec, w.served, a, b)
                     else seen == FileSeen(r, "200", "OK", w.served, |w.served.content|, [], w.served.content))
  {
    hide *;
    var r := HttpRequest.ParseText(w.buf).request;
    ReplySeen(s, buf, tlsAvailable, w);
    ServedVerb(w.buf);
    RangeIsSeen(r, w.served, w.io.date, hdr, spec);
  }

  // ---- Methods that are not served ----

  /** A complete request with any other method: nothing goes on the wire, nothing is told, no
      file is taken, nothing is waited for, and the request stays where it is. */
  lemma OtherMethodIgnored(s: Sender, buf: string, tlsAvailable: bool, w: Awakening)
    requires Wakes(s, buf, tlsAvailable, w) && C.Replies(s, buf, w.io)
    requires HttpRequest.ParseText(w.buf).ok && !Served(w.buf)
    ensures w.after.state == PARSING && w.after.wire == s.wire && w.after.file == AtRequest(s).file
    ensures w.want == NONE && NewReply(s, buf, tlsAvailable, w) == None
    ensures s.state == PARSING ==> w.after == s && w.buf == buf
  {
    hide HttpRequest.ParseText, C.Replies, Served, Wakes, AnswerTo, Wake;
    ServedVerb(w.buf);
    ReplyIs(s, buf, tlsAvailable, w);
    BufferStays(s, buf, tlsAvailable, w);
  }

  lemma BufferStays(s: Sender, buf: string, tlsAvailable: bool, w: Awakening)
    requires Wakes(s, buf, tlsAvailable, w)
    ensures s.state == PARSING ==> w.buf == buf && C.Replies(s, buf, w.io)
  {
    hide C.Reply;
  }

  /** And so it remains: however often it is woken, such a connection sends and tells nothing. */
  lemma {:induction false} IgnoredForGood(s: Sender, buf: string, tlsAvailable: bool, ws: seq<Awakening>)
    requires s.state == PARSING && HttpRequest.ParseText(buf).ok && !Served(buf) && Chain(s, buf, tlsAvailable, ws)
    ensures Last(s, ws) == s && LastBuf(buf, ws) == buf && Replies(s, buf, tlsAvailable, ws) == []
    ensures forall i :: 0 <= i < |ws| ==> ws[i].want == NONE
    decreases |ws|
  {
    hide Wakes, NewReply, HttpRequest.ParseText, Served, C.Replies;
    if ws != [] {
      var n := |ws| - 1;
      IgnoredForGood(s, buf, tlsAvailable, ws[..n]);
      BufferStays(s, buf, tlsAvailable, ws[n]);
      OtherMethodIgnored(s, buf, tlsAvailable, ws[n]);
      assert forall i :: 0 <= i < n ==> ws[i] == ws[..n][i];
    }
  }

  /** In particular a printed request with any other method word. */
  lemma PrintedOtherMethod(rawMethod: string, path: string, version: string, headers: seq<HttpRequest.Header>,
                           last: HttpRequest.Header, tail: string)
    requires ' ' !in rawMethod && ' ' !in path && rawMethod !in {"GET", "HEAD"}
    requires OneLine(HttpRequest.RequestLine(rawMethod, path, version))
    requires HttpRequest.AllPrintable(headers) && HttpRequest.Printable(last)
    ensures var text := HttpRequest.PrintRequest(rawMethod, path, version, headers + [last]) + tail;
            HttpRequest.ParseText(text).ok && !Served(text)
  {
    hide HttpRequest.ParseText, HttpRequest.PrintRequest;
    HttpRequest.ParsePrinted(rawMethod, path, version, headers, last, tail);
  }

  // ---- Texts that are no request ----

  /** A page told without a request, after which the server says it closes. */
  function ClosingPage(code: string, reason: string, html: string): Seen {
    Seen(StatusText(code, reason), ["text/html; charset=utf-8"], [Decimal(|html|)], [], [], ["close"], [], html)
  }

  lemma ClosingPageSeen(status: HttpResponse.Status, code: string, reason: string, html: string, date: string)
    requires OneLine("Date: " + date) && status != HttpResponse.NOT_MODIFIED && Called(status, code, reason)
    ensures var plan := PlanOf(Page(PageResponse(status, html, false)), date);
            PlanFits(plan) && SeenOf(plan) == ClosingPage(code, reason, html)
  {
    hide HttpResponse.HeaderText, HttpResponse.StatusLine, StatusText, SeenIn, Decimal, WellFormed, Called;
    CalledLine(status, code, reason);
    PageFramed(status, html, false, false, date);
    HeaderSeen(PageResponse(status, html, false), date, html);
  }

  /** A complete text that does not parse is told 400, with the body whatever was asked. */
  lemma MalformedTold(s: Sender, buf: string, tlsAvailable: bool, w: Awakening)
    requires Wakes(s, buf, tlsAvailable, w) && C.Replies(s, buf, w.io) && OneLine("Date: " + w.io.date)
    requires !HttpRequest.ParseText(w.buf).ok
    ensures var reply := NewReply(s, buf, tlsAvailable, w);
            && reply.Some? && reply.value.text == w.buf && PlanFits(PlanTold(reply.value))
            && SeenOf(PlanTold(reply.value)) == ClosingPage("400", "Bad Request", ErrorHtml("400", "Bad Request"))
    ensures w.after.state == SENDING_HEADERS && w.want == WRITE && w.after.wire == s.wire
  {
    hide HttpRequest.ParseText, C.Replies, Wakes, AnswerTo, Wake, HttpResponse.HeaderText, SeenIn, ErrorHtml;
    hide HttpResponse.ErrorBody, ClosingPage, Called;
    ReplyIs(s, buf, tlsAvailable, w);
    StatusTable();
    ErrorHtmlIs(HttpResponse.BAD_REQUEST, "400", "Bad Request");
    ClosingPageSeen(HttpResponse.BAD_REQUEST, "400", "Bad Request", ErrorHtml("400", "Bad Request"), w.io.date);
  }

  // ---- The first byte, and the handshake ----

  /** What a handshake leads to: the page for a failure is told in the clear. */
  ghost predicate Shakes(s: Sender, w: Awakening, reply: Option<Told>) {
    && w.after.wire == s.wire && w.after.tls
    && match w.io.handshake
       case HandshakeDone => w.after.state == READING && w.want == READ && reply == None
       case HandshakeWantRead => w.after.state == TLS_ACCEPT && w.want == READ && reply == None
       case HandshakeWantWrite => w.after.state == TLS_ACCEPT && w.want == WRITE && reply == None
       case HandshakeFailed =>
         && w.after.state == SENDING_HEADERS && w.want == WRITE
         && reply.Some? && PlanFits(PlanTold(reply.value))
         && SeenOf(PlanTold(reply.value))
            == ClosingPage("500", "Internal Server Error", ErrorHtml("500", "Internal Server Error"))
  }

  lemma HandshakeTold(s: Sender, buf: string, tlsAvailable: bool, w: Awakening)
    requires s.state == TLS_ACCEPT && s.tls && Wakes(s, buf, tlsAvailable, w) && OneLine("Date: " + w.io.date)
    ensures Shakes(s, w, NewReply(s, buf, tlsAvailable, w)) && w.buf == buf
  {
    hide HttpResponse.HeaderText, SeenIn, ErrorHtml, HttpResponse.ErrorBody, ClosingPage, Called;
    StatusTable();
    ErrorHtmlIs(HttpResponse.INTERNAL_ERROR, "500", "Internal Server Error");
    ClosingPageSeen(HttpResponse.INTERNAL_ERROR, "500", "Internal Server Error",
                    ErrorHtml("500", "Internal Server Error"), w.io.date);
  }

  lemma ByteShakes(s: Sender, buf: string, w: Awakening)
    requires s.state == PROTO_DETECT && Wakes(s, buf, true, w) && OneLine("Date: " + w.io.date)
    requires w.io.peek == Peeked(22 as char) && !s.tls
    ensures Shakes(s, w, NewReply(s, buf, true, w))
  {
    hide HttpResponse.HeaderText, SeenIn, ErrorHtml, HttpResponse.ErrorBody, ClosingPage, Called;
    StatusTable();
    ErrorHtmlIs(HttpResponse.INTERNAL_ERROR, "500", "Internal Server Error");
    ClosingPageSeen(HttpResponse.INTERNAL_ERROR, "500", "Internal Server Error",
                    ErrorHtml("500", "Internal Server Error"), w.io.date);
  }

  lemma NoTlsTold(s: Sender, buf: string, w: Awakening)
    requires s.state == PROTO_DETECT && Wakes(s, buf, false, w) && OneLine("Date: " + w.io.date)
    requires w.io.peek == Peeked(22 as char)
    ensures w.after.state == SENDING_HEADERS && w.want == WRITE && w.after.wire == s.wire
    ensures var reply := NewReply(s, buf, false, w);
            && reply.Some? && PlanFits(PlanTold(reply.value))
            && SeenOf(PlanTold(reply.value))
               == ClosingPage("400", "Bad Request",
                              ErrorHtml("400", "Bad Request") + "\n(Server does not support HTTPS/TLS)")
  {
    hide HttpResponse.HeaderText, SeenIn, ErrorHtml, HttpResponse.ErrorBody, ClosingPage, Called;
    StatusTable();
    ErrorHtmlIs(HttpResponse.BAD_REQUEST, "400", "Bad Request");
    ClosingPageSeen(HttpResponse.BAD_REQUEST, "400", "Bad Request",
                    ErrorHtml("400", "Bad Request") + C.NO_TLS_NOTE, w.io.date);
  }

  /** The first byte of a connection: 22, and only that, starts a TLS handshake, in the same
      wakeup; without TLS it is told 400 and a note. Any other byte is the start of a request,
      and is not yet read. */
  lemma FirstByteDecides(s: Sender, buf: string, tlsAvailable: bool, w: Awakening)
    requires s.state == PROTO_DETECT && Wakes(s, buf, tlsAvailable, w) && OneLine("Date: " + w.io.date)
    ensures var reply := NewReply(s, buf, tlsAvailable, w);
            match w.io.peek
            case Peeked(first) =>
              if first as int != 22 then w.after == s.(state := READING) && w.want == READ && reply == None
              else if !tlsAvailable then
                && w.after.state == SENDING_HEADERS && w.want == WRITE && w.after.wire == s.wire
                && reply.Some? && PlanFits(PlanTold(reply.value))
                && SeenOf(PlanTold(reply.value))
                   == ClosingPage("400", "Bad Request",
                                  ErrorHtml("400", "Bad Request") + "\n(Server does not support HTTPS/TLS)")
              else if s.tls then w.after == s.(state := TLS_ACCEPT) && w.want == NONE && reply == None
              else Shakes(s, w, reply)
            case PeekAgain => w.after == s && w.want == READ && reply == None
            case PeekEof => w.after.state == CLOSED && w.after.wire == s.wire && w.want == NONE && reply == None
            case PeekFailed => w.after.state == CLOSED && w.after.wire == s.wire && w.want == NONE && reply == None
  {
    hide HttpResponse.HeaderText, SeenIn, SeenOf, ErrorHtml, ClosingPage, Shakes, C.WithPage, C.NoTlsPage;
    hide C.Handshaking;
    match w.io.peek
    case Peeked(first) =>
      if first as int == 22 {
        if !tlsAvailable {
          NoTlsTold(s, buf, w);
        } else if !s.tls {
          ByteShakes(s, buf, w);
        }
      }
    case _ =>
  }
}
