/** What a connection waits for: which direction each call, each wakeup and each run of
    wakeups ends with, by the outcomes met; and which outcomes close it. */
module Wants {
  import opened Text
  import opened States
  import opened Sending
  import opened SendingRuns
  import opened Responding
  import opened Wakeups
  import opened Serving
  import HttpRequest
  import HttpResponse
  import Reading
  import C = Connection

  // ---- One call of the sending half ----

  /** The header write takes all that was left of the header. */
  predicate HeaderGoesOut(s: Sender, w: WriteOutcome)
    requires InHeaders(s)
  {
    w.Wrote? && w.n >= |s.header| - s.headerSent
  }

  /** The outcome of the last write that a call can try: that of the body as soon as the
      header is out. */
  function LastWrite(s: Sender, io: SendIo): WriteOutcome
    requires Sends(s)
  {
    if s.state == SENDING_BODY || HeaderGoesOut(s, io.header) then io.body else io.header
  }

  /** What a write of `available` bytes does not survive: a failure, a wish to read on a plain
      connection, nothing taken on a TLS one. */
  predicate Fatal(tls: bool, w: WriteOutcome, available: nat) {
    match w
    case WriteFailed => true
    case WantRead => !tls
    case WouldBlock => false
    case Wrote(n) => tls && (n == 0 || available == 0)
  }

  /** So does the body: a fatal write, a file that cannot be read, or a failing `sendfile`. */
  predicate BodyFails(s: Sender, io: SendIo)
    requires s.state != CLOSED
  {
    if s.file == None && s.body != "" then s.bodySent < |s.body| && Fatal(s.tls, io.body, |s.body| - s.bodySent)
    else if s.tls then
      if s.chunkSent < s.chunkUsed then Fatal(true, io.body, 1)
      else s.remaining > 0 && (io.pread == 0 || Fatal(true, io.body, 1))
    else s.remaining > 0 && io.sendfile.SendFailed?
  }

  predicate CallFails(s: Sender, io: SendIo)
    requires Sends(s)
  {
    if s.state == SENDING_BODY then BodyFails(s, io)
    else
      || Fatal(s.tls, io.header, |s.header| - s.headerSent)
      || (HeaderGoesOut(s, io.header) && !NoBody(s) && BodyFails(s, io))
  }

  /** A call closes the connection if and only if it fails; otherwise it waits to read once the
      response is out, and in this direction until then. */
  predicate Waits(o: Outcome, fails: bool, direction: Want) {
    && (o.next.state == CLOSED <==> fails)
    && match o.next.state
       case CLOSED => o.want == NONE
       case KEEP_ALIVE => o.want == READ
       case _ => o.want == direction
  }

  /** The direction in which a call waits while the response is under way: to write, but for a
      TLS connection whose last write asked to read. */
  function Direction(s: Sender, w: WriteOutcome): Want {
    if s.tls && w == WantRead then READ else WRITE
  }

  lemma MemoryWaits(s: Sender, io: SendIo)
    requires s.state == SENDING_BODY && s.file == None && s.body != ""
    ensures Waits(SendMemory(s, io), BodyFails(s, io), Direction(s, io.body))
  {
  }

  lemma PlainWaits(s: Sender, io: SendIo)
    requires s.state == SENDING_BODY && !s.tls && (s.file == None ==> s.body == "")
    ensures Waits(SendPlain(s, io), BodyFails(s, io), WRITE)
  {
    hide FileBytes;
  }

  lemma ChunkWaits(s: Sender, io: SendIo)
    requires s.state == SENDING_BODY && s.tls && s.chunkSent < s.chunkUsed
    ensures Waits(SendChunk(s, io), Fatal(true, io.body, 1), Direction(s, io.body))
  {
  }

  lemma TlsWaits(s: Sender, io: SendIo)
    requires s.state == SENDING_BODY && s.tls && (s.file == None ==> s.body == "")
    ensures Waits(SendTls(s, io), BodyFails(s, io), Direction(s, io.body))
  {
    hide SendChunk, FileBytes, Resize;
    var n := Min(io.pread, Min(s.remaining, CHUNK_SIZE));
    if s.chunkSent < s.chunkUsed {
      ChunkWaits(s, io);
    } else if s.remaining > 0 && n > 0 {
      ChunkWaits(LoadChunk(s, n), io);
    }
  }

  lemma BodyWaits(s: Sender, io: SendIo)
    requires s.state == SENDING_BODY
    ensures Waits(SendBody(s, io), BodyFails(s, io), Direction(s, io.body))
  {
    hide SendMemory, SendTls, SendPlain, Waits, BodyFails;
    if s.file == None && s.body != "" {
      MemoryWaits(s, io);
    } else if s.tls {
      TlsWaits(s, io);
    } else {
      PlainWaits(s, io);
    }
  }

  lemma HeaderWaits(s: Sender, io: SendIo)
    requires InHeaders(s)
    ensures var h := HeadersPart(s, io.header);
            && (h.next.state == SENDING_BODY <==>
                  !Fatal(s.tls, io.header, |s.header| - s.headerSent) && HeaderGoesOut(s, io.header) && !NoBody(s))
            && (h.next.state == SENDING_BODY ==>
                  h.next.tls == s.tls && BodyFails(h.next, io) == BodyFails(s, io))
            && (h.next.state != SENDING_BODY ==>
                  && Waits(h, Fatal(s.tls, io.header, |s.header| - s.headerSent), Direction(s, io.header))
                  && (HeaderGoesOut(s, io.header) ==> Over(h.next)))
  {
  }

  /** What every call of the sending half waits for, and when it closes, by the outcomes it
      meets. */
  lemma StepWaits(s: Sender, io: SendIo)
    requires Sends(s)
    ensures Waits(Step(s, io), CallFails(s, io), Direction(s, LastWrite(s, io)))
  {
    hide SendBody, HeadersPart, BodyFails, Fatal;
    if s.state == SENDING_BODY {
      BodyWaits(s, io);
    } else {
      var h := HeadersPart(s, io.header);
      HeaderWaits(s, io);
      if h.next.state == SENDING_BODY {
        BodyWaits(h.next, io);
      }
    }
  }

  // ---- How much one call sends ----

  function Least(a: nat, b: nat): nat {
    if a <= b then a else b
  }

  /** What the socket takes of `available` bytes. */
  function TakenBy(w: WriteOutcome, available: nat): nat {
    match w
    case Wrote(n) => Least(n, available)
    case _ => 0
  }

  /** What it takes of the body: of the rest of a page, of a chunk of at most 65536 bytes, or
      what `sendfile` says. */
  function BodyTakes(s: Sender, io: SendIo): nat
    requires s.state != CLOSED
  {
    if s.file == None && s.body != "" then TakenBy(io.body, |s.body| - s.bodySent)
    else if s.tls then
      if s.chunkSent < s.chunkUsed then TakenBy(io.body, s.chunkUsed - s.chunkSent)
      else TakenBy(io.body, Least(io.pread, Least(s.remaining, 65536)))
    else
      match io.sendfile
      case SentAll => s.remaining
      case SentSome(n) => Least(n, s.remaining)
      case SendFailed(n) => Least(n, s.remaining)
  }

  function CallTakes(s: Sender, io: SendIo): nat
    requires Sends(s)
  {
    if s.state == SENDING_BODY then BodyTakes(s, io)
    else
      var n := TakenBy(io.header, |s.header| - s.headerSent);
      n + if !Fatal(s.tls, io.header, |s.header| - s.headerSent) && HeaderGoesOut(s, io.header) && !NoBody(s)
          then BodyTakes(s, io) else 0
  }

  lemma MemorySends(s: Sender, io: SendIo)
    requires s.state == SENDING_BODY && s.file == None && s.body != ""
    ensures |SendMemory(s, io).next.wire| == |s.wire| + TakenBy(io.body, |s.body| - s.bodySent)
  {
  }

  lemma ChunkSends(s: Sender, io: SendIo)
    requires s.state == SENDING_BODY && s.tls && s.chunkSent < s.chunkUsed
    ensures |SendChunk(s, io).next.wire| == |s.wire| + TakenBy(io.body, s.chunkUsed - s.chunkSent)
  {
  }

  lemma FileSends(s: Sender, io: SendIo)
    requires s.state == SENDING_BODY && (s.file == None ==> s.body == "")
    ensures |(if s.tls then SendTls(s, io) else SendPlain(s, io)).next.wire| == |s.wire| + BodyTakes(s, io)
  {
    hide SendChunk, Resize;
    var n := Min(io.pread, Min(s.remaining, CHUNK_SIZE));
    if s.tls {
      if s.chunkSent < s.chunkUsed {
        ChunkSends(s, io);
      } else if s.remaining > 0 && n > 0 {
        ChunkSends(LoadChunk(s, n), io);
      }
    }
  }

  lemma BodySends(s: Sender, io: SendIo)
    requires s.state == SENDING_BODY
    ensures |SendBody(s, io).next.wire| == |s.wire| + BodyTakes(s, io)
  {
    hide SendMemory, SendTls, SendPlain;
    if s.file == None && s.body != "" {
      MemorySends(s, io);
    } else {
      FileSends(s, io);
    }
  }

  lemma HeaderSends(s: Sender, io: SendIo)
    requires InHeaders(s)
    ensures var h := HeadersPart(s, io.header).next;
            && |h.wire| == |s.wire| + TakenBy(io.header, |s.header| - s.headerSent)
            && (h.state == SENDING_BODY ==> BodyTakes(h, io) == BodyTakes(s, io))
  {
  }

  /** Every call puts on the wire as many bytes as the socket takes, and together with
      `Sending.StepMovesOn` that says which. */
  lemma StepSends(s: Sender, io: SendIo)
    requires Sends(s)
    ensures |Step(s, io).next.wire| == |s.wire| + CallTakes(s, io)
  {
    hide SendBody, BodyTakes, HeadersPart, TakenBy, Fatal;
    if s.state == SENDING_BODY {
      BodySends(s, io);
    } else {
      var h := HeadersPart(s, io.header);
      HeaderWaits(s, io);
      HeaderSends(s, io);
      if h.next.state == SENDING_BODY {
        BodySends(h.next, io);
      }
    }
  }

  /** In particular a plain connection waits to write until the response is out. */
  lemma PlainStepWants(s: Sender, io: SendIo)
    requires Sends(s) && !s.tls
    ensures Step(s, io).next.state != CLOSED ==>
              Step(s, io).want == if Step(s, io).next.state == KEEP_ALIVE then READ else WRITE
  {
    hide Step, CallFails;
    StepWaits(s, io);
  }

  // ---- One wakeup ----

  /** No TLS before detection, and nothing but TLS in the handshake. */
  predicate Placed(s: SenderFields) {
    (s.state == PROTO_DETECT ==> !s.tls) && (s.state == TLS_ACCEPT ==> s.tls)
  }

  /** A response is under way or still being tried. */
  predicate Answering(s: SenderFields, buf: string) {
    Started(s) || (s.state == PARSING && Served(buf))
  }

  /** A plain connection waits to write while a response is under way or being tried, to read
      while it waits for a request, and for nothing with a request that is not served. */
  predicate PlainWant(s: SenderFields, buf: string, want: Want) {
    if s.state == CLOSED then want == NONE
    else if Answering(s, buf) then want == WRITE
    else if s.state == PARSING then want == NONE
    else want == READ
  }

  lemma TlsStays(s: Sender, io: SendIo)
    requires Sends(s)
    ensures var t := Step(s, io).next; t.state != CLOSED ==> t.tls == s.tls && t.state !in {PROTO_DETECT, TLS_ACCEPT}
  {
    hide WriteResult, FileBytes, Resize, Min, SendBody;
    if s.state == SENDING_BODY {
      BodyTlsStays(s, io);
    } else {
      var h := HeadersPart(s, io.header).next;
      assert h.state != CLOSED ==> h.tls == s.tls;
      if h.state == SENDING_BODY {
        BodyTlsStays(h, io);
      }
    }
  }

  lemma BodyTlsStays(s: Sender, io: SendIo)
    requires s.state == SENDING_BODY
    ensures var t := SendBody(s, io).next;
            t.state != CLOSED ==> t.tls == s.tls && t.state !in {PROTO_DETECT, TLS_ACCEPT}
  {
    hide WriteResult, FileBytes, Resize, Min;
  }

  lemma ReplyWants(s: Sender, text: string, served: Lookup, io: C.Io)
    requires s.state == PARSING
    ensures var o := C.Reply(s, text, served, io);
            && (o.next.state != CLOSED ==> o.next.tls == s.tls) && Placed(o.next)
            && (o.next.state == PARSING ==> HttpRequest.ParseText(text).ok)
            && (!s.tls || o.next.state == CLOSED ==> PlainWant(o.next, text, o.want))
  {
    hide HttpRequest.ParseText, AnswerTo, SendHeaders, HttpResponse.HeaderText, ErrorResponse, Served, CallFails;
    ServedVerb(text);
    var p := HttpRequest.ParseText(text);
    if p.ok && p.request.verb != HttpRequest.UNKNOWN {
      AnswerFits(p.request, served, io.date);
      var t := Prepared(s, PlanOf(AnswerTo(p.request, served), io.date));
      StepWaits(t, io.send);
      TlsStays(t, io.send);
      StateForward(t, io.send);
    }
  }

  lemma ReadWants(s: Sender, r: Reading.ReadStepResult, served: Lookup, io: C.Io, before: Reading.Reader, tls: bool)
    requires s.state == before.state && (s.state == READING || s.state == KEEP_ALIVE)
    requires s.bodySent == 0 && s.chunkSent == s.chunkUsed && s.tls == tls
    requires r == Reading.ReadStep(before, tls, io.read)
    ensures var o := C.ReadThenReply(s, r, served, io);
            && (o.next.state != CLOSED ==> o.next.tls == s.tls) && Placed(o.next)
            && (o.next.state == PARSING ==> HttpRequest.ParseText(r.next.buf).ok)
            && (!tls || o.next.state == CLOSED ==> PlainWant(o.next, r.next.buf, o.want))
            && (r.next.state == CLOSED ==> o.next.state == CLOSED)
            && (tls && r.next.state == s.state ==> o.want == if io.read == ReadWantWrite then WRITE else READ)
  {
    hide C.Reply, Reading.Terminated, HttpRequest.ParseText, Served;
    if r.next.state == PARSING {
      ReplyWants(s.(state := PARSING), r.next.buf, served, io);
    }
  }

  /** The facts that a wakeup keeps, and what a plain connection then waits for. */
  ghost predicate WantsRight(s: Sender, w: Awakening) {
    && Placed(w.after) && (w.after.state == PARSING ==> HttpRequest.ParseText(w.buf).ok)
    && (s.tls && w.after.state != CLOSED ==> w.after.tls)
    && (w.after.state == CLOSED || !w.after.tls ==> PlainWant(w.after, w.buf, w.want))
  }

  lemma StartedWants(s: Sender, buf: string, tlsAvailable: bool, w: Awakening)
    requires Wakes(s, buf, tlsAvailable, w) && Started(s)
    ensures WantsRight(s, w)
  {
    hide HttpRequest.ParseText, Served, Step, CallFails;
    StepWaits(s, w.io.send);
    TlsStays(s, w.io.send);
    StateForward(s, w.io.send);
  }

  lemma ParsingWants(s: Sender, buf: string, tlsAvailable: bool, w: Awakening)
    requires Wakes(s, buf, tlsAvailable, w) && s.state == PARSING
    ensures WantsRight(s, w)
  {
    hide HttpRequest.ParseText, Served, C.Reply;
    ReplyWants(s, buf, w.served, w.io);
  }

  lemma ReadingWants(s: Sender, buf: string, tlsAvailable: bool, w: Awakening)
    requires Wakes(s, buf, tlsAvailable, w) && (s.state == READING || s.state == KEEP_ALIVE)
    ensures WantsRight(s, w)
    ensures s.tls && w.after.state != CLOSED && !C.Replies(s, buf, w.io) ==>
              w.want == if w.io.read == ReadWantWrite then WRITE else READ
  {
    hide HttpRequest.ParseText, Served, C.Reply, C.ReadThenReply, Reading.ReadStep, PlainWant;
    var before := Reading.Reader(s.state, if s.state == READING then buf else "");
    var r := Reading.ReadStep(before, s.tls, w.io.read);
    Reading.ReadStates(before, s.tls, w.io.read);
    ReadWants(if s.state == READING then s else Cleared(s), r, w.served, w.io, before, s.tls);
  }

  lemma OpeningWants(s: Sender, buf: string, tlsAvailable: bool, w: Awakening)
    requires Wakes(s, buf, tlsAvailable, w) && Placed(s) && s.state in {PROTO_DETECT, TLS_ACCEPT, CLOSED}
    ensures WantsRight(s, w)
  {
    hide HttpRequest.ParseText, Served, ErrorResponse, C.NoTlsPage, HttpResponse.HeaderText;
  }

  /** What a plain connection waits for after any wakeup; and TLS is not given up while it lives. */
  lemma WakeupWants(s: Sender, buf: string, tlsAvailable: bool, w: Awakening)
    requires Wakes(s, buf, tlsAvailable, w) && Placed(s)
    ensures WantsRight(s, w)
  {
    hide Wakes, WantsRight;
    if Started(s) {
      StartedWants(s, buf, tlsAvailable, w);
    } else if s.state == PARSING {
      ParsingWants(s, buf, tlsAvailable, w);
    } else if s.state == READING || s.state == KEEP_ALIVE {
      ReadingWants(s, buf, tlsAvailable, w);
    } else {
      OpeningWants(s, buf, tlsAvailable, w);
    }
  }

  lemma ReplyNeverReads(s: Sender, text: string, served: Lookup, io: C.Io)
    requires s.state == PARSING
    ensures C.Reply(s, text, served, io).next.state != READING
  {
    hide HttpRequest.ParseText, AnswerTo, SendHeaders, HttpResponse.HeaderText, ErrorResponse;
    var p := HttpRequest.ParseText(text);
    if p.ok && p.request.verb != HttpRequest.UNKNOWN {
      AnswerFits(p.request, served, io.date);
      StateForward(Prepared(s, PlanOf(AnswerTo(p.request, served), io.date)), io.send);
    }
  }

  /** A connection that is reading after a wakeup was so before, or was just told apart. */
  lemma ReadingAfter(s: Sender, buf: string, tlsAvailable: bool, w: Awakening)
    requires Wakes(s, buf, tlsAvailable, w) && w.after.state == READING
    ensures s.state in {PROTO_DETECT, TLS_ACCEPT, READING}
  {
    hide C.Reply, C.Detecting, C.Handshaking, Step, Reading.ReadStep;
    if Started(s) {
      StateForward(s, w.io.send);
    } else if s.state == PARSING {
      ReplyNeverReads(s, buf, w.served, w.io);
    } else if s.state == KEEP_ALIVE {
      var r := Reading.ReadStep(Reading.Reader(KEEP_ALIVE, ""), s.tls, w.io.read);
      Reading.ReadStates(Reading.Reader(KEEP_ALIVE, ""), s.tls, w.io.read);
      if r.next.state == PARSING {
        ReplyNeverReads(Cleared(s).(state := PARSING), r.next.buf, w.served, w.io);
      }
    }
  }

  // ---- Whole runs ----

  /** At any moment of the life of a plain connection, what it last waited for is decided by
      its state and buffer: to write exactly while a response is under way or being tried. */
  lemma {:induction false} PlainChainWants(s: Sender, tlsAvailable: bool, ws: seq<Awakening>)
    requires s == C.Opened(s) && Chain(s, "", tlsAvailable, ws)
    ensures var t, b := Last(s, ws), LastBuf("", ws);
            && Placed(t)
            && (t.state != CLOSED && !t.tls ==> LastWant(ws) == if Answering(t, b) then WRITE else READ)
    decreases |ws|
  {
    hide Wakes, Served, HttpRequest.ParseText, C.Opened;
    if ws == [] {
      OpenedWants(s);
    } else {
      var n := |ws| - 1;
      var t, b := Last(s, ws[..n]), LastBuf("", ws[..n]);
      PlainChainWants(s, tlsAvailable, ws[..n]);
      WakeupWants(t, b, tlsAvailable, ws[n]);
      if ws[n].want == NONE && ws[n].after.state != CLOSED && !ws[n].after.tls {
        NothingWanted(t, b, tlsAvailable, ws[n]);
      }
    }
  }

  lemma OpenedWants(s: Sender)
    requires s == C.Opened(s)
    ensures s.state == PROTO_DETECT && !s.tls
  {
  }

  /** A wakeup of a plain connection that ends without a want leaves a request that is not
      served, and read just now or met before. */
  lemma NothingWanted(s: Sender, buf: string, tlsAvailable: bool, w: Awakening)
    requires Wakes(s, buf, tlsAvailable, w) && Placed(s) && w.want == NONE && w.after.state != CLOSED && !w.after.tls
    ensures w.after.state == PARSING && !Served(w.buf) && !s.tls && s.state != CLOSED
    ensures s.state in {PARSING, READING, KEEP_ALIVE} && (s.state == PARSING ==> w.buf == buf)
  {
    hide HttpRequest.ParseText, Served, Step, C.Reply, C.ReadThenReply;
    WakeupWants(s, buf, tlsAvailable, w);
    C.DetectedStates(s, tlsAvailable, w.io);
    if Started(s) {
      StateForward(s, w.io.send);
    }
  }
}
