/** One connection: its socket, its state, its buffers, and the calls of its state machine,
    each proved against the step functions of Sending and Reading. */
module Connection {
  import opened Text
  import opened States
  import opened Sending
  import opened SendingRuns
  import opened Kernel
  import opened Responding
  import Reading
  import ByteRange
  import HttpRequest
  import HttpResponse

  const TLS_HANDSHAKE: char := 22 as char
  const NO_TLS_NOTE := "\n(Server does not support HTTPS/TLS)"

  /** The outcomes of the calls one wakeup may make: `hint` is the descriptor number an
      opened file would get. */
  datatype Io = Io(
    peek: PeekOutcome, handshake: HandshakeOutcome, read: ReadOutcome, send: SendIo,
    lookup: Lookup, hint: int, date: string)

  /** The page of an error answered without `prepare_response`. */
  function WithPage(s: Sender, r: HttpResponse.Response, date: string): Sender
    requires InRequest(s)
  {
    s.(state := SENDING_HEADERS, header := HttpResponse.HeaderText(r, date), headerSent := 0, body := r.body)
  }

  /** The states up to the first header byte. */
  predicate InRequest(s: SenderFields) {
    s.state == PROTO_DETECT || s.state == TLS_ACCEPT || s.state == READING || s.state == PARSING
  }

  /** `init`: the header and chunk buffers keep what they held. */
  function Opened(s: Sender): Sender {
    SenderFields(PROTO_DETECT, false, s.header, 0, false, "", 0, None, 0, 0, s.chunk, 0, 0, "")
  }

  function NoTlsPage(): HttpResponse.Response {
    PageResponse(HttpResponse.BAD_REQUEST, HttpResponse.ErrorBody(HttpResponse.BAD_REQUEST) + NO_TLS_NOTE, false)
  }

  /** `do_proto_detect`: what the first byte of a connection decides. */
  function Peeking(s: Sender, tlsAvailable: bool, o: PeekOutcome, date: string): Outcome
    requires s.state == PROTO_DETECT
  {
    match o
    case Peeked(first) =>
      if first != TLS_HANDSHAKE then Outcome(s.(state := READING), READ)
      else if tlsAvailable then Outcome(s.(state := TLS_ACCEPT), NONE)
      else Outcome(WithPage(s, NoTlsPage(), date), WRITE)
    case PeekEof => Outcome(Sending.Close(s), NONE)
    case PeekAgain => Outcome(s, READ)
    case PeekFailed => Outcome(Sending.Close(s), NONE)
  }

  /** `do_tls_accept`. */
  function Handshaking(s: Sender, o: HandshakeOutcome, date: string): Outcome
    requires s.state == TLS_ACCEPT
  {
    match o
    case HandshakeDone => Outcome(s.(state := READING), READ)
    case HandshakeWantRead => Outcome(s, READ)
    case HandshakeWantWrite => Outcome(s, WRITE)
    case HandshakeFailed => Outcome(WithPage(s, ErrorResponse(HttpResponse.INTERNAL_ERROR, false), date), WRITE)
  }

  /** Detection, and the handshake at once when it finds TLS. */
  function Detecting(s: Sender, tlsAvailable: bool, io: Io): Outcome
    requires s.state == PROTO_DETECT
  {
    var o := Peeking(s, tlsAvailable, io.peek, io.date);
    if o.next.state == TLS_ACCEPT && !o.next.tls then Handshaking(o.next.(tls := true), io.handshake, io.date) else o
  }

  predicate Yields(s: SenderFields, want: Want, o: Outcome) {
    s == o.next && want == o.want
  }

  /** What a turn before the response does: the state and buffer it leaves, the request it
      parses, and what it waits for. */
  ghost predicate Received(before: Sender, buf: string, after: SenderFields, bufAfter: string,
                           request: HttpRequest.Request, want: Want, tlsAvailable: bool, io: Io)
  {
    var r := Reading.Reader(after.state, bufAfter);
    match before.state
    case READING =>
      && Reading.ReadStepResult(r, want) == Reading.ReadStep(Reading.Reader(READING, buf), before.tls, io.read)
      && request == HttpRequest.EMPTY
      && after == (if after.state == CLOSED then Sending.Close(before) else before.(state := after.state))
    case KEEP_ALIVE =>
      && Reading.ReadStepResult(r, want) == Reading.ReadStep(Reading.Reader(KEEP_ALIVE, ""), before.tls, io.read)
      && request == HttpRequest.EMPTY
      && after == (if after.state == CLOSED then Sending.Close(Cleared(before))
                   else Cleared(before).(state := after.state))
    case PARSING =>
      && bufAfter == buf && request == HttpRequest.ParseText(buf).request
      && Yields(after, want, if HttpRequest.ParseText(buf).ok then Outcome(before, NONE)
                         else Outcome(WithPage(before, ErrorResponse(HttpResponse.BAD_REQUEST, false), io.date), WRITE))
    case PROTO_DETECT => Yields(after, want, Detecting(before, tlsAvailable, io)) && bufAfter == buf
    case TLS_ACCEPT => Yields(after, want, Handshaking(before, io.handshake, io.date)) && bufAfter == buf
    case _ => false
  }

  /** Still PARSING, or on the way to a page because the text does not parse. */
  ghost predicate ParsedOrRefused(s: SenderFields, text: string) {
    s.state == if HttpRequest.ParseText(text).ok then PARSING else SENDING_HEADERS
  }

  // ---- A whole wakeup ----

  /** A complete request text, met in PARSING: a page if it does not parse, nothing if its
      method is unknown, else the response built and its first write tried. */
  function Reply(before: Sender, text: string, served: Lookup, io: Io): Outcome
    requires before.state == PARSING
  {
    var p := HttpRequest.ParseText(text);
    if !p.ok then Outcome(WithPage(before, ErrorResponse(HttpResponse.BAD_REQUEST, false), io.date), WRITE)
    else if p.request.verb == HttpRequest.UNKNOWN then Outcome(before, NONE)
    else
      AnswerFits(p.request, served, io.date);
      Wake(before, PlanOf(AnswerTo(p.request, served), io.date), io.send)
  }

  /** What a read leads to in the same wakeup. */
  function ReadThenReply(s: Sender, r: Reading.ReadStepResult, served: Lookup, io: Io): Outcome
    requires s.state == READING || s.state == KEEP_ALIVE
    requires s.bodySent == 0 && s.chunkSent == s.chunkUsed
  {
    match r.next.state
    case CLOSED => Outcome(Sending.Close(s), NONE)
    case PARSING => Reply(s.(state := PARSING), r.next.buf, served, io)
    case _ => Outcome(s, r.want)
  }

  /** What one wakeup of a connection does and what it then waits for: a new connection is
      told apart, a response under way moves one step, a request that is complete is
      answered, and a new one starts from cleared buffers. */
  ghost predicate Worked(before: Sender, buf: string, after: SenderFields, bufAfter: string, want: Want,
                         tlsAvailable: bool, served: Lookup, io: Io)
  {
    match before.state
    case CLOSED => after == before && bufAfter == buf && want == NONE
    case PROTO_DETECT => Yields(after, want, Detecting(before, tlsAvailable, io)) && bufAfter == buf
    case TLS_ACCEPT => Yields(after, want, Handshaking(before, io.handshake, io.date)) && bufAfter == buf
    case READING =>
      var r := Reading.ReadStep(Reading.Reader(READING, buf), before.tls, io.read);
      Yields(after, want, ReadThenReply(before, r, served, io)) && bufAfter == r.next.buf
    case PARSING => Yields(after, want, Reply(before, buf, served, io)) && bufAfter == buf
    case SENDING_HEADERS => Yields(after, want, Step(before, io.send)) && bufAfter == buf
    case SENDING_BODY => Yields(after, want, Step(before, io.send)) && bufAfter == buf
    case KEEP_ALIVE =>
      var r := Reading.ReadStep(Reading.Reader(KEEP_ALIVE, ""), before.tls, io.read);
      Yields(after, want, ReadThenReply(Cleared(before), r, served, io)) && bufAfter == r.next.buf
  }

  /** What the turn of the state machine does, before any reply. */
  ghost predicate Ran(before: Sender, buf: string, after: SenderFields, bufAfter: string,
                      request: HttpRequest.Request, want: Want, tlsAvailable: bool, io: Io)
  {
    if Started(before) then Yields(after, want, Step(before, io.send)) && bufAfter == buf
    else before.state != CLOSED && Received(before, buf, after, bufAfter, request, want, tlsAvailable, io)
  }

  /** The request a reply may start from: not parsed yet, or parsed from this text. */
  ghost predicate RequestOf(request: HttpRequest.Request, text: string) {
    request == HttpRequest.EMPTY
    || (HttpRequest.ParseText(text).ok && request == HttpRequest.ParseText(text).request)
  }

  lemma RanLeavesRequest(before: Sender, buf: string, mid: Sender, bufMid: string,
                         request: HttpRequest.Request, want: Want, tlsAvailable: bool, io: Io)
    requires Ran(before, buf, mid, bufMid, request, want, tlsAvailable, io) && mid.state == PARSING
    ensures RequestOf(request, bufMid)
  {
    hide Step, Detecting, Handshaking, WithPage;
    DetectedStates(before, tlsAvailable, io);
    if Started(before) {
      StateForward(before, io.send);
    }
  }

  /** The reply to a complete request; nothing more otherwise. */
  ghost predicate Replied(mid: Sender, bufMid: string, wantMid: Want, after: SenderFields, want: Want,
                          served: Lookup, io: Io)
  {
    Yields(after, want, if mid.state == PARSING then Reply(mid, bufMid, served, io) else Outcome(mid, wantMid))
  }

  lemma ReadThenReplyIs(s: Sender, state: State, tls: bool, buf: string, mid: Sender, bufMid: string, wantMid: Want,
                        after: SenderFields, want: Want, served: Lookup, io: Io)
    requires s.state == state && (state == READING || state == KEEP_ALIVE)
    requires s.bodySent == 0 && s.chunkSent == s.chunkUsed
    requires Reading.ReadStepResult(Reading.Reader(mid.state, bufMid), wantMid)
             == Reading.ReadStep(Reading.Reader(state, buf), tls, io.read)
    requires mid == if mid.state == CLOSED then Sending.Close(s) else s.(state := mid.state)
    requires Replied(mid, bufMid, wantMid, after, want, served, io)
    ensures var r := Reading.ReadStep(Reading.Reader(state, buf), tls, io.read);
            Yields(after, want, ReadThenReply(s, r, served, io))
  {
    Reading.ReadStates(Reading.Reader(state, buf), tls, io.read);
  }

  lemma ParseThenReply(before: Sender, buf: string, mid: Sender, bufMid: string, wantMid: Want, tlsAvailable: bool,
    request: HttpRequest.Request, after: SenderFields, want: Want, served: Lookup, io: Io)
    requires Ran(before, buf, mid, bufMid, request, wantMid, tlsAvailable, io)
    requires Replied(mid, bufMid, wantMid, after, want, served, io)
    requires before.state == PARSING
    ensures Worked(before, buf, after, bufMid, want, tlsAvailable, served, io)
  {
    hide Wake, ErrorResponse;
  }

  lemma DetectedStates(s: Sender, tlsAvailable: bool, io: Io)
    ensures s.state == PROTO_DETECT ==> Detecting(s, tlsAvailable, io).next.state != PARSING
    ensures s.state == TLS_ACCEPT ==> Handshaking(s, io.handshake, io.date).next.state !in {PARSING, CLOSED}
    ensures s.state == PARSING ==>
              WithPage(s, ErrorResponse(HttpResponse.BAD_REQUEST, false), io.date).state == SENDING_HEADERS
  {
    hide ErrorResponse, NoTlsPage;
  }

  lemma StartedThenReply(before: Sender, buf: string, mid: Sender, bufMid: string, wantMid: Want, tlsAvailable: bool,
    request: HttpRequest.Request, after: SenderFields, want: Want, served: Lookup, io: Io)
    requires Ran(before, buf, mid, bufMid, request, wantMid, tlsAvailable, io)
    requires Replied(mid, bufMid, wantMid, after, want, served, io)
    requires Started(before)
    ensures Worked(before, buf, after, bufMid, want, tlsAvailable, served, io)
  {
    hide Step, Reply;
    StateForward(before, io.send);
  }

  lemma DetectedThenReply(before: Sender, buf: string, mid: Sender, bufMid: string, wantMid: Want, tlsAvailable: bool,
    request: HttpRequest.Request, after: SenderFields, want: Want, served: Lookup, io: Io)
    requires Ran(before, buf, mid, bufMid, request, wantMid, tlsAvailable, io)
    requires Replied(mid, bufMid, wantMid, after, want, served, io)
    requires before.state == PROTO_DETECT || before.state == TLS_ACCEPT
    ensures Worked(before, buf, after, bufMid, want, tlsAvailable, served, io)
  {
    hide Detecting, Handshaking, Reply;
    DetectedStates(before, tlsAvailable, io);
  }

  lemma ReadThenReplied(before: Sender, buf: string, mid: Sender, bufMid: string, wantMid: Want, tlsAvailable: bool,
    request: HttpRequest.Request, after: SenderFields, want: Want, served: Lookup, io: Io)
    requires Ran(before, buf, mid, bufMid, request, wantMid, tlsAvailable, io)
    requires Replied(mid, bufMid, wantMid, after, want, served, io)
    requires before.state == READING || before.state == KEEP_ALIVE
    ensures Worked(before, buf, after, bufMid, want, tlsAvailable, served, io)
  {
    hide Reply, ReadThenReply;
    if before.state == READING {
      ReadThenReplyIs(before, READING, before.tls, buf, mid, bufMid, wantMid, after, want, served, io);
    } else {
      ReadThenReplyIs(Cleared(before), KEEP_ALIVE, before.tls, "", mid, bufMid, wantMid, after, want, served, io);
    }
  }

  /** The turn, and after it the reply, make up the wakeup. */
  lemma TurnThenReply(before: Sender, buf: string, mid: Sender, bufMid: string, wantMid: Want, tlsAvailable: bool,
    request: HttpRequest.Request, after: SenderFields, want: Want, served: Lookup, io: Io)
    requires before.state != CLOSED
    requires Ran(before, buf, mid, bufMid, request, wantMid, tlsAvailable, io)
    requires Replied(mid, bufMid, wantMid, after, want, served, io)
    ensures Worked(before, buf, after, bufMid, want, tlsAvailable, served, io)
  {
    hide Ran, Replied, Worked;
    if Started(before) {
      StartedThenReply(before, buf, mid, bufMid, wantMid, tlsAvailable, request, after, want, served, io);
    } else if before.state == PARSING {
      ParseThenReply(before, buf, mid, bufMid, wantMid, tlsAvailable, request, after, want, served, io);
    } else if before.state == READING || before.state == KEEP_ALIVE {
      ReadThenReplied(before, buf, mid, bufMid, wantMid, tlsAvailable, request, after, want, served, io);
    } else {
      DetectedThenReply(before, buf, mid, bufMid, wantMid, tlsAvailable, request, after, want, served, io);
    }
  }

  /** The turns that put the clock forward: every read, and the end of detection. */
  predicate Touches(before: State, after: State) {
    before == READING || before == KEEP_ALIVE
    || ((before == PROTO_DETECT || before == TLS_ACCEPT) && after == READING)
  }

  /** Whether this wakeup goes on to answer a request. */
  predicate Replies(before: SenderFields, buf: string, io: Io) {
    before.state == PARSING
    || (before.state == READING
        && Reading.ReadStep(Reading.Reader(READING, buf), before.tls, io.read).next.state == PARSING)
    || (before.state == KEEP_ALIVE
        && Reading.ReadStep(Reading.Reader(KEEP_ALIVE, ""), before.tls, io.read).next.state == PARSING)
  }

  /** The turns that go on to reply are those that leave PARSING, and those that meet a text
      in PARSING that does not parse. A file still held between responses is given up first. */
  lemma ReadLeavesFile(before: Sender, buf: string, mid: Sender, bufMid: string,
                       request: HttpRequest.Request, want: Want, tlsAvailable: bool, io: Io)
    requires Ran(before, buf, mid, bufMid, request, want, tlsAvailable, io)
    ensures mid.state == PARSING ==> Replies(before, buf, io)
    ensures Replies(before, buf, io) && before.state != PARSING ==>
              && (before.state == READING || before.state == KEEP_ALIVE) && mid.state == PARSING
              && mid.file == if before.state == READING then before.file else None
  {
    hide Step, Detecting, Handshaking, WithPage, ErrorResponse;
    DetectedStates(before, tlsAvailable, io);
    if Started(before) {
      StateForward(before, io.send);
    }
  }

  /** A connection closed in its wakeup was closed before the reply, or by it. */
  lemma ClosedBeforeReply(before: Sender, buf: string, mid: Sender, bufMid: string, wantMid: Want, tlsAvailable: bool,
                          request: HttpRequest.Request, after: SenderFields, want: Want, served: Lookup, io: Io)
    requires Ran(before, buf, mid, bufMid, request, wantMid, tlsAvailable, io)
    requires Replied(mid, bufMid, wantMid, after, want, served, io)
    ensures mid.state == CLOSED <==> after.state == CLOSED && !Replies(before, buf, io)
  {
    hide Step, Detecting, Handshaking, Reply, WithPage, ErrorResponse;
    DetectedStates(before, tlsAvailable, io);
    if Started(before) {
      StateForward(before, io.send);
    }
  }

  /** The reply after a turn does not change whether the wakeup counts as a read. */
  lemma TouchesBeforeReply(before: Sender, buf: string, mid: Sender, bufMid: string, wantMid: Want, tlsAvailable: bool,
                           request: HttpRequest.Request, after: SenderFields, want: Want, served: Lookup, io: Io)
    requires Ran(before, buf, mid, bufMid, request, wantMid, tlsAvailable, io)
    requires Replied(mid, bufMid, wantMid, after, want, served, io)
    ensures Touches(before.state, after.state) <==> Touches(before.state, mid.state)
  {
    hide Step, Detecting, Handshaking, Reply, WithPage, ErrorResponse;
    DetectedStates(before, tlsAvailable, io);
  }

  method BuildPage(status: HttpResponse.Status, html: string, keepAlive: bool) returns (r: HttpResponse.Response)
    ensures r == PageResponse(status, html, keepAlive)
  {
    var b := new HttpResponse.HttpResponse();
    b.SetStatus(status);
    b.SetBody(html);
    b.SetKeepAlive(keepAlive);
    b.SetContentType(HTML);
    b.SetContentLength(|html|);
    r := b.View();
  }

  method BuildNotModified(modified: string, keepAlive: bool) returns (r: HttpResponse.Response)
    ensures r == NotModifiedResponse(modified, keepAlive)
  {
    var b := new HttpResponse.HttpResponse();
    b.SetKeepAlive(keepAlive);
    b.SetStatus(HttpResponse.NOT_MODIFIED);
    b.SetLastModified(modified);
    r := b.View();
  }

  method BuildFileResponse(size: nat, mime: string, modified: string, range: Option<(int, int)>, keepAlive: bool)
    returns (r: HttpResponse.Response)
    requires range.Some? ==> 0 <= range.value.0 <= range.value.1 < size
    ensures r == FileResponse(size, mime, modified, range, keepAlive)
  {
    var b := new HttpResponse.HttpResponse();
    b.SetKeepAlive(keepAlive);
    var start, end: int := 0, size - 1;
    if range.Some? {
      start, end := range.value.0, range.value.1;
      b.SetHeader("Content-Range", ByteRange.ContentRange(start, end, size));
    }
    var length := if size > 0 then end - start + 1 else 0;
    b.SetStatus(if range.Some? then HttpResponse.PARTIAL_CONTENT else HttpResponse.OK);
    b.SetContentType(mime);
    b.SetContentLength(length);
    b.SetLastModified(modified);
    b.SetAcceptRanges(true);
    r := b.View();
  }

  class Connection {
    /** Position in the pool. */
    const slot: nat

    var fd: int
    var fileFd: int
    /** State, TLS flag, response buffers and send counters. */
    var out: SenderFields
    var readBuf: string
    var request: HttpRequest.Request
    var lastActive: int

    // The links of the keep-alive list, which the event loop works on.
    var prev: Connection?
    var next: Connection?
    var inList: bool

    function R(): Reading.Reader
      reads `out, `readBuf
    {
      Reading.Reader(out.state, readBuf)
    }

    ghost function Handles(): set<int>
      reads `fd, `fileFd
    {
      {fd, fileFd} - {-1}
    }

    /** A closed connection holds no handle, a live one has a socket. */
    ghost predicate Descriptors()
      reads `fd, `fileFd, `out
    {
      && Consistent(out)
      && fd >= -1 && fileFd >= -1
      && (out.state == CLOSED <==> fd == -1)
      && (out.state == CLOSED ==> !out.tls && fileFd == -1)
      && (fileFd == -1 <==> out.file == None)
    }

    /** Buffers are in bounds, and nothing is read or parsed before its time. */
    ghost predicate Buffers()
      reads `fileFd, `out, `readBuf, `request
    {
      && Reading.Bounded(R())
      && (out.state == PARSING ==> Reading.Terminated(readBuf))
      && (out.state == PROTO_DETECT || out.state == TLS_ACCEPT ==> readBuf == "")
      && (InRequest(out) && out.state != PARSING ==> request == HttpRequest.EMPTY && fileFd == -1)
    }

    /** What always holds of a connection by itself. */
    ghost predicate Inner()
      reads `fd, `fileFd, `out, `readBuf, `request
    {
      Descriptors() && Buffers() && (out.state == TLS_ACCEPT ==> out.tls)
    }

    /** The handles it holds are open and are what it takes them for. */
    ghost predicate Holds(k: Kernel)
      reads `fd, `fileFd, `out, k`open
    {
      && (fd != -1 ==> fd in k.open && k.open[fd].Socket?)
      && (fileFd != -1 ==> fileFd in k.open && k.open[fileFd].File? && Some(k.open[fileFd].content) == out.file)
    }

    /** At most gave up handles, and exactly those were closed and forgotten. */
    twostate predicate GaveUp(k: Kernel)
      reads this, k
    {
      && fd in {old(fd), -1}
      && fileFd in {old(fileFd), -1}
      && Dropped(k, old(Handles()) - Handles())
    }

    /** Nothing given up, nothing taken. */
    twostate lemma KeepsHandles(k: Kernel)
      requires old(Holds(k)) && unchanged(k) && fd == old(fd) && fileFd == old(fileFd) && out.file == old(out.file)
      ensures Holds(k) && GaveUp(k)
    {
      DroppedNothing(k.open, k.regs);
    }

    // ---- Life cycle ----

    constructor (slot: nat)
      ensures this.slot == slot && Inner() && out == IDLE && !inList
    {
      this.slot := slot;
      fd, fileFd, out := -1, -1, IDLE;
      readBuf, request := "", HttpRequest.EMPTY;
      prev, next, inList := null, null, false;
      lastActive := 0;
      new;
      TerminatorFree("");
    }

    /** The slot takes over a socket. It must hold no handle of an earlier use. */
    method Init(k: Kernel, newFd: int)
      requires Inner() && out.state == CLOSED
      requires newFd >= 0 && newFd in k.open && k.open[newFd].Socket?
      modifies this
      ensures Inner() && Holds(k)
      ensures fd == newFd && fileFd == -1 && out == Opened(old(out))
      ensures readBuf == "" && lastActive == k.now
      ensures prev == null && next == null && !inList
    {
      fd := newFd;
      fileFd := -1;
      out := SenderFields(PROTO_DETECT, false, out.header, 0, false, "", 0, None, 0, 0, out.chunk, 0, 0, "");
      lastActive := k.now;
      readBuf := "";
      request := HttpRequest.EMPTY;
      prev := null;
      next := null;
      inList := false;
      TerminatorFree("");
    }

    /** Ready for the next request on the same socket; the state is left as it is. */
    method Reset(k: Kernel)
      requires Inner() && Holds(k) && k.Valid() && out.state == KEEP_ALIVE
      modifies `fileFd, `out, `readBuf, `request, k
      ensures Inner() && Holds(k) && k.Valid()
      ensures GaveUp(k)
      ensures out == Cleared(old(out)) && readBuf == "" && request == HttpRequest.EMPTY
    {
      request := HttpRequest.EMPTY;
      out := out.(header := "", headerSent := 0);
      DropFile(k);
      out := out.(offset := 0, remaining := 0, chunkUsed := 0, bodySent := 0, chunkSent := 0);
      out := out.(body := "", isHead := false);
      readBuf := "";
      TerminatorFree("");
      assert old(Handles()) - Handles() == {old(fileFd)} - {-1};
    }

    /** Closes the file being sent, if there is one. */
    method DropFile(k: Kernel)
      requires k.Valid() && fileFd >= -1 && (fileFd != -1 ==> fileFd in k.open)
      modifies this`fileFd, this`out, k
      ensures k.Valid() && fileFd == -1 && out == old(out).(file := None)
      ensures Dropped(k, {old(fileFd)} - {-1})
    {
      if fileFd >= 0 {
        k.Close(fileFd);
        assert {fileFd} - {-1} == {fileFd};
        fileFd := -1;
      } else {
        assert {fileFd} - {-1} == {};
        DroppedNothing(k.open, k.regs);
      }
      out := out.(file := None);
    }

    /** Shuts the connection down and gives up every handle; again is a no-op. */
    method Close(k: Kernel)
      requires Descriptors() && Reading.Bounded(R().(state := CLOSED)) && Holds(k) && k.Valid()
      modifies `fd, `fileFd, `out, k
      ensures Inner() && Holds(k) && k.Valid()
      ensures Handles() == {} && GaveUp(k)
      ensures out == Sending.Close(old(out))
    {
      hide Forget, Kernel.Valid, Reading.Terminated;
      if out.state == CLOSED {
        KeepsHandles(k);
        return;
      }
      DroppedTwice(k.open, k.regs, {fd}, {fileFd} - {-1});
      assert Handles() == {fd} + ({fileFd} - {-1});
      k.Close(fd);
      fd := -1;
      out := out.(tls := false);
      DropFile(k);
      out := out.(state := CLOSED);
      assert Handles() == {} && old(Handles()) - {} == old(Handles());
    }

    // ---- Protocol detection and handshake ----

    /** The next page, its headers not yet sent. */
    method AnswerWithPage(r: HttpResponse.Response, date: string)
      requires Inner() && InRequest(out)
      modifies this`out
      ensures Inner() && out == WithPage(old(out), r, date)
      ensures out.state == SENDING_HEADERS && out.file == old(out).file
    {
      hide HttpResponse.HeaderText;
      var builder := new HttpResponse.HttpResponse.Of(r);
      var header := builder.BuildHeaders(date);
      out := out.(state := SENDING_HEADERS, header := header, headerSent := 0, body := r.body);
    }

    method RefuseTls(date: string)
      requires Inner() && out.state == PROTO_DETECT
      modifies this`out
      ensures Inner() && out == WithPage(old(out), NoTlsPage(), date)
      ensures out.state == SENDING_HEADERS && out.file == old(out).file
    {
      hide WithPage;
      var html := HttpResponse.ErrorBody(HttpResponse.BAD_REQUEST) + NO_TLS_NOTE;
      var page := BuildPage(HttpResponse.BAD_REQUEST, html, false);
      AnswerWithPage(page, date);
    }

    /** The TLS object is still to come when this ends in TLS_ACCEPT. */
    method DoProtoDetect(k: Kernel, tlsAvailable: bool, o: PeekOutcome, date: string) returns (want: Want)
      requires Inner() && Holds(k) && k.Valid() && out.state == PROTO_DETECT
      modifies `fd, `fileFd, `out, `lastActive, k
      ensures Descriptors() && Buffers() && Holds(k) && k.Valid()
      ensures GaveUp(k)
      ensures Yields(out, want, Peeking(old(out), tlsAvailable, o, date))
      ensures lastActive == if out.state == READING then k.now else old(lastActive)
    {
      hide WithPage, NoTlsPage;
      DroppedNothing(k.open, k.regs);
      match o
      case PeekEof => { Close(k); return NONE; }
      case PeekAgain => { return READ; }
      case PeekFailed => { Close(k); return NONE; }
      case Peeked(first) => {
        if first == TLS_HANDSHAKE {
          if !tlsAvailable {
            RefuseTls(date);
            return WRITE;
          }
          out := out.(state := TLS_ACCEPT);
          return NONE;
        }
        lastActive := k.now;
        out := out.(state := READING);
        TerminatorFree("");
        return READ;
      }
    }

    /** The event loop hands over the TLS object. */
    method SetSsl()
      requires Descriptors() && Buffers() && out.state == TLS_ACCEPT
      modifies this`out
      ensures Inner() && out == old(out).(tls := true)
    {
      out := out.(tls := true);
    }

    method FailHandshake(date: string)
      requires Inner() && out.state == TLS_ACCEPT
      modifies this`out
      ensures Inner() && out == WithPage(old(out), ErrorResponse(HttpResponse.INTERNAL_ERROR, false), date)
      ensures out.state == SENDING_HEADERS && out.file == old(out).file
    {
      hide WithPage;
      var page := BuildPage(HttpResponse.INTERNAL_ERROR, HttpResponse.ErrorBody(HttpResponse.INTERNAL_ERROR), false);
      AnswerWithPage(page, date);
    }

    method DoTlsAccept(k: Kernel, o: HandshakeOutcome, date: string) returns (want: Want)
      requires Inner() && Holds(k) && out.state == TLS_ACCEPT
      modifies `out, `lastActive
      ensures Inner() && Holds(k) && out.file == old(out.file)
      ensures Yields(out, want, Handshaking(old(out), o, date))
      ensures lastActive == if out.state == READING then k.now else old(lastActive)
    {
      hide WithPage, PageResponse, ErrorResponse;
      match o
      case HandshakeDone => {
        out := out.(state := READING);
        lastActive := k.now;
        TerminatorFree("");
        return READ;
      }
      case HandshakeWantRead => { return READ; }
      case HandshakeWantWrite => { return WRITE; }
      case HandshakeFailed => {
        FailHandshake(date);
        return WRITE;
      }
    }

    // ---- Reading and parsing ----

    /** Reading a first request, or the next one after `Reset`. */
    predicate Reads()
      reads this
    {
      out.state == READING
      || (out.state == KEEP_ALIVE && readBuf == "" && request == HttpRequest.EMPTY && fileFd == -1
          && out.bodySent == 0 && out.chunkSent == out.chunkUsed)
    }

    method DoRead(k: Kernel, o: ReadOutcome) returns (want: Want)
      requires Inner() && Holds(k) && k.Valid() && Reads()
      modifies `fd, `fileFd, `out, `readBuf, `lastActive, k
      ensures Inner() && Holds(k) && k.Valid()
      ensures GaveUp(k)
      ensures Reading.ReadStepResult(R(), want) == Reading.ReadStep(old(R()), old(out).tls, o)
      ensures out == if out.state == CLOSED then Sending.Close(old(out)) else old(out).(state := out.state)
      ensures lastActive == k.now
    {
      hide Forget, Reading.AfterTaking;
      lastActive := k.now;
      match Reading.ReadResult(out.tls, o)
      case Wait(direction) => {
        KeepsHandles(k);
        return direction;
      }
      case End => { Close(k); return NONE; }
      case Taken(data) => { want := TakeInput(k, data); }
    }

    /** The bytes read join the buffer. */
    method TakeInput(k: Kernel, data: string) returns (want: Want)
      requires Inner() && Holds(k) && k.Valid() && Reads() && 0 < |data| <= Reading.READ_SIZE
      modifies `fd, `fileFd, `out, `readBuf, k
      ensures Inner() && Holds(k) && k.Valid()
      ensures GaveUp(k)
      ensures Reading.ReadStepResult(R(), want) == Reading.AfterTaking(old(R()), data)
      ensures out == if out.state == CLOSED then Sending.Close(old(out)) else old(out).(state := out.state)
    {
      hide Forget;
      readBuf := readBuf + data;
      if Find(readBuf, CRLFCRLF, 0) != NPOS {
        out := out.(state := PARSING);
        KeepsHandles(k);
        return NONE;
      }
      if |readBuf| > Reading.MAX_HEADER {
        Close(k);
        return NONE;
      }
      KeepsHandles(k);
      return READ;
    }

    method RefuseRequest(date: string)
      requires Inner() && out.state == PARSING
      modifies this`out
      ensures Inner() && out == WithPage(old(out), ErrorResponse(HttpResponse.BAD_REQUEST, false), date)
      ensures out.state == SENDING_HEADERS && out.file == old(out).file
    {
      hide WithPage;
      var page := BuildPage(HttpResponse.BAD_REQUEST, HttpResponse.ErrorBody(HttpResponse.BAD_REQUEST), false);
      AnswerWithPage(page, date);
    }

    method DoParse(date: string) returns (want: Want)
      requires Inner() && out.state == PARSING
      modifies `request, `out
      ensures Inner() && out.file == old(out.file) && ParsedOrRefused(out, readBuf)
      ensures request == HttpRequest.ParseText(readBuf).request
      ensures if HttpRequest.ParseText(readBuf).ok then want == NONE && out == old(out)
              else want == WRITE && out == WithPage(old(out), ErrorResponse(HttpResponse.BAD_REQUEST, false), date)
    {
      hide HttpRequest.ParseText, WithPage, ErrorResponse;
      var parser := new HttpRequest.HttpRequest();
      var ok := parser.Parse(readBuf);
      request := parser.View();
      if !ok {
        RefuseRequest(date);
        return WRITE;
      }
      return NONE;
    }

    // ---- Preparing the response ----

    /** The response serialised, to be sent from its first byte. */
    method PrepareHeaders(r: HttpResponse.Response, isHead: bool, date: string)
      requires Inner() && out.state == PARSING
      modifies `out
      ensures Inner()
      ensures out == old(out).(header := HttpResponse.HeaderText(r, date), headerSent := 0,
                               isHead := isHead, body := r.body)
    {
      var builder := new HttpResponse.HttpResponse.Of(r);
      var header := builder.BuildHeaders(date);
      out := out.(header := header, headerSent := 0, isHead := isHead, body := r.body);
    }

    /** Takes over an open file. A file still held from an earlier attempt is not closed:
        its descriptor is lost. */
    method SetSendFile(k: Kernel, newFd: int, part: FilePart)
      requires Inner() && Holds(k) && out.state == PARSING
      requires newFd >= 0 && newFd in k.open && k.open[newFd].File? && k.open[newFd].content == part.content
      requires part.start <= |part.content| && part.end < |part.content|
      modifies `fileFd, `out
      ensures Inner() && Holds(k)
      ensures fileFd == newFd && out == WithFile(old(out), part)
    {
      fileFd := newFd;
      out := out.(file := Some(part.content), offset := part.start,
                  remaining := if part.end >= part.start then part.end - part.start + 1 else 0);
    }

    // ---- Sending ----

    method DoSendHeaders(k: Kernel, io: SendIo) returns (want: Want)
      requires Inner() && Holds(k) && k.Valid() && InHeaders(out)
      modifies `fd, `fileFd, `out, k
      ensures Inner() && Holds(k) && k.Valid()
      ensures GaveUp(k)
      ensures Outcome(out, want) == SendHeaders(old(out), io)
    {
      hide SendBody, HeadersPart, Inner, Kernel.Valid, Buffers, FileConsistent;
      want := WriteHeaders(k, io.header);
      if out.state == SENDING_BODY {
        DroppedNothing(old(k.open), old(k.regs));
        want := DoSendBody(k, io);
      }
    }

    method WriteHeaders(k: Kernel, w: WriteOutcome) returns (want: Want)
      requires Inner() && Holds(k) && k.Valid() && InHeaders(out)
      modifies `fd, `fileFd, `out, k
      ensures Inner() && Holds(k) && k.Valid()
      ensures GaveUp(k)
      ensures out.state == SENDING_BODY ==> Handles() == old(Handles())
      ensures Outcome(out, want) == HeadersPart(old(out), w)
    {
      hide HeaderTaken, Sending.Close, Reading.Terminated, Kernel.Valid;
      DroppedNothing(k.open, k.regs);
      var remaining := |out.header| - out.headerSent;
      match WriteResult(out.tls, w, remaining)
      case Blocked(direction) => { return direction; }
      case Broken => { Close(k); return NONE; }
      case Moved(n) => {
        TakeHeader(k, n);
        if out.headerSent < |out.header| { return WRITE; }
        want := LeaveHeaders(k);
      }
    }

    /** The headers are all sent: on to the body, if there is one. */
    method LeaveHeaders(k: Kernel) returns (want: Want)
      requires Inner() && Holds(k) && InHeaders(out)
      modifies `out
      ensures Inner() && Holds(k)
      ensures Outcome(out, want) == if NoBody(old(out)) then Outcome(old(out).(state := KEEP_ALIVE), READ)
                                    else Outcome(old(out).(state := SENDING_BODY), WRITE)
    {
      if out.isHead || (out.body == "" && fileFd < 0) {
        out := out.(state := KEEP_ALIVE);
        return READ;
      }
      out := out.(state := SENDING_BODY);
      return WRITE;
    }

    /** `n` more header bytes were taken. */
    method TakeHeader(k: Kernel, n: nat)
      requires Inner() && Holds(k) && InHeaders(out) && n <= |out.header| - out.headerSent
      modifies `out
      ensures Inner() && Holds(k) && InHeaders(out) && out == HeaderTaken(old(out), n)
    {
      out := out.(wire := out.wire + out.header[out.headerSent..out.headerSent + n], headerSent := out.headerSent + n);
    }

    method DoSendBody(k: Kernel, io: SendIo) returns (want: Want)
      requires Inner() && Holds(k) && k.Valid() && out.state == SENDING_BODY
      modifies `fd, `fileFd, `out, k
      ensures Inner() && Holds(k) && k.Valid()
      ensures GaveUp(k)
      ensures Outcome(out, want) == SendBody(old(out), io)
    {
      if fileFd < 0 && out.body != "" {
        want := DoSendMemory(k, io);
      } else if out.tls {
        want := DoSendBodyTls(k, io);
      } else {
        want := DoSendBodyPlain(k, io);
      }
    }

    method DoSendMemory(k: Kernel, io: SendIo) returns (want: Want)
      requires Inner() && Holds(k) && k.Valid() && out.state == SENDING_BODY && fileFd == -1 && out.body != ""
      modifies `fd, `fileFd, `out, k
      ensures Inner() && Holds(k) && k.Valid()
      ensures GaveUp(k)
      ensures Outcome(out, want) == SendMemory(old(out), io)
    {
      hide Forget, BodyTaken;
      var remaining := |out.body| - out.bodySent;
      if remaining == 0 {
        out := out.(state := KEEP_ALIVE);
        KeepsHandles(k);
        return READ;
      }
      match WriteResult(out.tls, io.body, remaining)
      case Blocked(direction) => {
        KeepsHandles(k);
        return direction;
      }
      case Broken => { Close(k); return NONE; }
      case Moved(n) => {
        want := TakeBody(k, n);
        KeepsHandles(k);
      }
    }

    /** `n` more body bytes were taken. */
    method TakeBody(k: Kernel, n: nat) returns (want: Want)
      requires Inner() && Holds(k) && out.state == SENDING_BODY && fileFd == -1 && out.body != ""
      requires n <= |out.body| - out.bodySent
      modifies `out
      ensures Inner() && out.file == old(out.file)
      ensures Outcome(out, want) == BodyTaken(old(out), n)
    {
      out := out.(wire := out.wire + out.body[out.bodySent..out.bodySent + n], bodySent := out.bodySent + n);
      if out.bodySent < |out.body| { return WRITE; }
      out := out.(state := KEEP_ALIVE);
      return READ;
    }

    /** The body is all sent: the file is closed. */
    method FinishBody(k: Kernel) returns (want: Want)
      requires Inner() && Holds(k) && k.Valid() && out.state == SENDING_BODY
      requires out.remaining == 0 && out.chunkSent == out.chunkUsed
      modifies `fileFd, `out, k
      ensures Inner() && Holds(k) && k.Valid()
      ensures GaveUp(k)
      ensures out == old(out).(state := KEEP_ALIVE, file := None) && want == READ
    {
      HandlesWithoutFile();
      out := out.(state := KEEP_ALIVE);
      DropFile(k);
      return READ;
    }

    lemma HandlesWithoutFile()
      requires fd != -1 && fd != fileFd
      ensures Handles() - ({fd, -1} - {-1}) == {fileFd} - {-1}
      ensures Handles() - {fd} == {fileFd} - {-1}
    {
    }

    method DoSendBodyPlain(k: Kernel, io: SendIo) returns (want: Want)
      requires Inner() && Holds(k) && k.Valid() && out.state == SENDING_BODY && !out.tls
      requires out.file == None ==> out.body == ""
      modifies `fd, `fileFd, `out, k
      ensures Inner() && Holds(k) && k.Valid()
      ensures GaveUp(k)
      ensures Outcome(out, want) == SendPlain(old(out), io)
    {
      hide Forget;
      if out.remaining <= 0 {
        want := FinishBody(k);
        return;
      }
      match io.sendfile
      case SentAll => { want := SendWhole(k); }
      case SentSome(n) => {
        SendSome(k, n);
        KeepsHandles(k);
        return WRITE;
      }
      case SendFailed(n) => {
        out := out.(wire := out.wire + k.open[fileFd].content[out.offset..out.offset + Min(n, out.remaining)]);
        Close(k);
        return NONE;
      }
    }

    /** `sendfile` moved all that was left. */
    method SendWhole(k: Kernel) returns (want: Want)
      requires Inner() && Holds(k) && k.Valid() && out.state == SENDING_BODY && !out.tls && out.remaining > 0
      modifies `fileFd, `out, k
      ensures Inner() && Holds(k) && k.Valid()
      ensures GaveUp(k)
      ensures out == old(out).(remaining := 0, wire := old(out).wire + FileBytes(old(out), old(out).remaining),
                               state := KEEP_ALIVE, file := None)
      ensures want == READ
    {
      hide Forget;
      out := out.(wire := out.wire + k.open[fileFd].content[out.offset..out.offset + out.remaining], remaining := 0);
      want := FinishBody(k);
    }

    /** `sendfile` moved at most `n` bytes. */
    method SendSome(k: Kernel, n: nat)
      requires Inner() && Holds(k) && out.state == SENDING_BODY && !out.tls && out.remaining > 0
      modifies `out
      ensures Inner() && out.file == old(out.file)
      ensures var sent := Min(n, old(out).remaining);
              out == old(out).(offset := old(out).offset + sent, remaining := old(out).remaining - sent,
                               wire := old(out).wire + FileBytes(old(out), sent))
    {
      var sent := Min(n, out.remaining);
      out := out.(wire := out.wire + k.open[fileFd].content[out.offset..out.offset + sent]);
      out := out.(offset := out.offset + sent, remaining := out.remaining - sent);
    }

    method DoSendBodyTls(k: Kernel, io: SendIo) returns (want: Want)
      requires Inner() && Holds(k) && k.Valid() && out.state == SENDING_BODY && out.tls
      requires out.file == None ==> out.body == ""
      modifies `fd, `fileFd, `out, k
      ensures Inner() && Holds(k) && k.Valid()
      ensures GaveUp(k)
      ensures Outcome(out, want) == SendTls(old(out), io)
    {
      if out.chunkSent >= out.chunkUsed {
        if out.remaining <= 0 {
          want := FinishBody(k);
          return;
        }
        var toRead := Min(out.remaining, CHUNK_SIZE);
        var n := Min(io.pread, toRead);
        if n == 0 {
          Close(k);
          return NONE;
        }
        LoadChunkFrom(k, n);
      }
      want := WriteChunk(k, io);
    }

    /** `pread` of `n` bytes into the chunk buffer. */
    method LoadChunkFrom(k: Kernel, n: nat)
      requires Inner() && Holds(k) && out.state == SENDING_BODY && out.tls
      requires out.chunkSent == out.chunkUsed && 0 < n <= Min(out.remaining, CHUNK_SIZE)
      modifies `out
      ensures Inner() && Holds(k)
      ensures out == LoadChunk(old(out), n) && out.chunkSent < out.chunkUsed
    {
      var buffer := Resize(out.chunk, Min(out.remaining, CHUNK_SIZE));
      var data := k.open[fileFd].content[out.offset..out.offset + n];
      out := out.(chunk := data + buffer[n..]);
      out := out.(chunkUsed := n, chunkSent := 0);
      assert out == LoadChunk(old(out), n);
    }

    method WriteChunk(k: Kernel, io: SendIo) returns (want: Want)
      requires Inner() && Holds(k) && k.Valid() && out.state == SENDING_BODY && out.tls
      requires out.chunkSent < out.chunkUsed
      modifies `fd, `fileFd, `out, k
      ensures Inner() && Holds(k) && k.Valid()
      ensures GaveUp(k)
      ensures Outcome(out, want) == SendChunk(old(out), io)
    {
      hide ChunkTaken;
      DroppedNothing(k.open, k.regs);
      var remaining := out.chunkUsed - out.chunkSent;
      match WriteResult(true, io.body, remaining)
      case Blocked(direction) => { return direction; }
      case Broken => { Close(k); return NONE; }
      case Moved(n) => {
        TakeChunk(k, n);
        return WRITE;
      }
    }

    /** `n` more bytes of the chunk were taken. */
    method TakeChunk(k: Kernel, n: nat)
      requires Inner() && Holds(k) && out.state == SENDING_BODY && out.tls
      requires out.chunkSent < out.chunkUsed && n <= out.chunkUsed - out.chunkSent
      modifies `out
      ensures Inner() && Holds(k) && out == ChunkTaken(old(out), n)
    {
      out := out.(wire := out.wire + out.chunk[out.chunkSent..out.chunkSent + n], chunkSent := out.chunkSent + n);
      if out.chunkSent >= out.chunkUsed {
        out := out.(offset := out.offset + out.chunkUsed, remaining := out.remaining - out.chunkUsed);
      }
    }

    // ---- One turn of the state machine ----

    /** The switch of `process_connection`: the action of the current state, and the
        handshake right after TLS is detected. A TLS object is always available. */
    method RunState(k: Kernel, tlsAvailable: bool, io: Io) returns (want: Want)
      requires Inner() && Holds(k) && k.Valid() && out.state != CLOSED
      modifies `fd, `fileFd, `out, `readBuf, `request, `lastActive, k
      ensures Inner() && Holds(k) && k.Valid() && GaveUp(k) && k.now == old(k.now)
      ensures old(out.state) == PARSING ==>
                k.open == old(k.open) && fd == old(fd) && fileFd == old(fileFd) && readBuf == old(readBuf)
                && ParsedOrRefused(out, readBuf)
      ensures Ran(old(out), old(readBuf), out, readBuf, request, want, tlsAvailable, io)
      ensures lastActive == if Touches(old(out.state), out.state) then k.now else old(lastActive)
    {
      hide Received, Holds, Buffers, Forget, HttpRequest.ParseText, SendHeaders, SendBody, Kernel.Valid;
      if out.state == SENDING_HEADERS {
        want := DoSendHeaders(k, io.send);
      } else if out.state == SENDING_BODY {
        want := DoSendBody(k, io.send);
      } else {
        want := Receive(k, tlsAvailable, io);
      }
    }

    method Receive(k: Kernel, tlsAvailable: bool, io: Io) returns (want: Want)
      requires Inner() && Holds(k) && k.Valid() && out.state != CLOSED && !Started(out)
      modifies `fd, `fileFd, `out, `readBuf, `request, `lastActive, k
      ensures Inner() && Holds(k) && k.Valid() && GaveUp(k)
      ensures old(out.state) == PARSING ==>
                k.open == old(k.open) && fd == old(fd) && fileFd == old(fileFd) && readBuf == old(readBuf)
                && ParsedOrRefused(out, readBuf)
      ensures Received(old(out), old(readBuf), out, readBuf, request, want, tlsAvailable, io)
      ensures lastActive == if Touches(old(out.state), out.state) then k.now else old(lastActive)
    {
      hide Detecting, Handshaking, WithPage, ErrorResponse, Cleared, Holds, GaveUp, HttpRequest.ParseText, Buffers;
      match out.state
      case CLOSED =>
      case PROTO_DETECT => { want := DetectAndShake(k, tlsAvailable, io); }
      case TLS_ACCEPT => { want := KeepShaking(k, io); }
      case READING => { want := ReadOn(k, io.read); }
      case PARSING => { want := ParseAgain(k, io.date); }
      case SENDING_HEADERS =>
      case SENDING_BODY =>
      case KEEP_ALIVE => { want := ResetAndRead(k, io.read); }
    }

    method KeepShaking(k: Kernel, io: Io) returns (want: Want)
      requires Inner() && Holds(k) && k.Valid() && out.state == TLS_ACCEPT
      modifies `out, `lastActive
      ensures Inner() && Holds(k) && GaveUp(k)
      ensures Yields(out, want, Handshaking(old(out), io.handshake, io.date))
      ensures lastActive == if out.state == READING then k.now else old(lastActive)
    {
      hide Handshaking, Forget;
      want := DoTlsAccept(k, io.handshake, io.date);
      KeepsHandles(k);
    }

    method ReadOn(k: Kernel, o: ReadOutcome) returns (want: Want)
      requires Inner() && Holds(k) && k.Valid() && out.state == READING
      modifies `fd, `fileFd, `out, `readBuf, `lastActive, k
      ensures Inner() && Holds(k) && k.Valid() && GaveUp(k)
      ensures Reading.ReadStepResult(R(), want) == Reading.ReadStep(old(R()), old(out).tls, o)
      ensures out == if out.state == CLOSED then Sending.Close(old(out)) else old(out).(state := out.state)
      ensures request == HttpRequest.EMPTY && lastActive == k.now
    {
      want := DoRead(k, o);
    }

    method ParseAgain(k: Kernel, date: string) returns (want: Want)
      requires Inner() && Holds(k) && k.Valid() && out.state == PARSING
      modifies `request, `out
      ensures Inner() && Holds(k) && GaveUp(k) && ParsedOrRefused(out, readBuf)
      ensures request == HttpRequest.ParseText(readBuf).request
      ensures Yields(out, want, if HttpRequest.ParseText(readBuf).ok then Outcome(old(out), NONE)
                            else Outcome(WithPage(old(out), ErrorResponse(HttpResponse.BAD_REQUEST, false), date),
                                         WRITE))
    {
      hide HttpRequest.ParseText, ErrorResponse;
      DroppedNothing(k.open, k.regs);
      want := DoParse(date);
    }

    method DetectAndShake(k: Kernel, tlsAvailable: bool, io: Io) returns (want: Want)
      requires Inner() && Holds(k) && k.Valid() && out.state == PROTO_DETECT
      modifies `fd, `fileFd, `out, `lastActive, k
      ensures Inner() && Holds(k) && k.Valid() && GaveUp(k)
      ensures Yields(out, want, Detecting(old(out), tlsAvailable, io))
      ensures lastActive == if out.state == READING then k.now else old(lastActive)
    {
      hide Forget, Handshaking, WithPage, NoTlsPage;
      want := DoProtoDetect(k, tlsAvailable, io.peek, io.date);
      if out.state == TLS_ACCEPT && !out.tls {
        SetSsl();
        want := DoTlsAccept(k, io.handshake, io.date);
      }
    }

    method ResetAndRead(k: Kernel, o: ReadOutcome) returns (want: Want)
      requires Inner() && Holds(k) && k.Valid() && out.state == KEEP_ALIVE
      modifies `fd, `fileFd, `out, `readBuf, `request, `lastActive, k
      ensures Inner() && Holds(k) && k.Valid() && GaveUp(k)
      ensures Reading.ReadStepResult(R(), want) == Reading.ReadStep(Reading.Reader(KEEP_ALIVE, ""), old(out).tls, o)
      ensures out == if out.state == CLOSED then Sending.Close(Cleared(old(out)))
                     else Cleared(old(out)).(state := out.state)
      ensures request == HttpRequest.EMPTY && lastActive == k.now
    {
      Reset(k);
      ghost var middle := Handles();
      want := DoRead(k, o);
      DroppedTwice(old(k.open), old(k.regs), old(Handles()) - middle, middle - Handles());
      GivenUpTwice(old(Handles()), middle, Handles());
    }
  }

  lemma GivenUpTwice(a: set<int>, b: set<int>, c: set<int>)
    requires c <= b <= a
    ensures (a - b) + (b - c) == a - c
  {
  }

  lemma TerminatorFree(s: string)
    requires |s| < 4
    ensures !Reading.Terminated(s)
  {
  }
}
