/** What a connection puts on the wire over any sequence of wakeups: the responses they
    start, and conservation of their bytes. */
module Stream {
  import opened Text
  import opened States
  import opened Sending
  import opened SendingRuns
  import opened Responding
  import opened Wakeups
  import HttpRequest
  import HttpResponse
  import Reading
  import C = Connection

  // ---- The responses that wakeups start ----

  /** A response started: the connection it is started from, the answer, and the request
      text it answers, "" when there is none yet. */
  datatype Opening = Opening(from: Sender, answer: Answer, text: string)

  function Page(r: HttpResponse.Response): Answer {
    Answer(r, false, None)
  }

  /** What a complete request text starts. */
  function OpensOn(s: Sender, text: string, served: Lookup): Option<Opening> {
    var p := HttpRequest.ParseText(text);
    if !p.ok then Some(Opening(s, Page(ErrorResponse(HttpResponse.BAD_REQUEST, false)), text))
    else if p.request.verb == HttpRequest.UNKNOWN then None
    else Some(Opening(s, AnswerTo(p.request, served), text))
  }

  function OpensAfterRead(s: Sender, r: Reading.Reader, served: Lookup): Option<Opening>
    requires s.state == READING || s.state == KEEP_ALIVE
    requires s.bodySent == 0 && s.chunkSent == s.chunkUsed
  {
    if r.state == PARSING then OpensOn(s.(state := PARSING), r.buf, served) else None
  }

  /** The response a wakeup starts or starts over, if any: an answer, the page for a
      malformed request, or a page about TLS. */
  function Opens(s: Sender, buf: string, tlsAvailable: bool, w: Awakening): Option<Opening> {
    match s.state
    case PARSING => OpensOn(s, buf, w.served)
    case READING => OpensAfterRead(s, Reading.ReadStep(Reading.Reader(READING, buf), s.tls, w.io.read).next, w.served)
    case KEEP_ALIVE =>
      OpensAfterRead(Cleared(s), Reading.ReadStep(Reading.Reader(KEEP_ALIVE, ""), s.tls, w.io.read).next, w.served)
    case PROTO_DETECT =>
      if C.Detecting(s, tlsAvailable, w.io).next.state != SENDING_HEADERS then None
      else if C.Peeking(s, tlsAvailable, w.io.peek, w.io.date).next.state == SENDING_HEADERS then
        Some(Opening(s, Page(C.NoTlsPage()), ""))
      else Some(Opening(s, Page(ErrorResponse(HttpResponse.INTERNAL_ERROR, false)), ""))
    case TLS_ACCEPT =>
      if w.io.handshake == HandshakeFailed
      then Some(Opening(s, Page(ErrorResponse(HttpResponse.INTERNAL_ERROR, false)), "")) else None
    case _ => None
  }

  function TryOf(o: Opening, w: Awakening): Try {
    Try(PlanOf(o.answer, w.io.date), w.io.send)
  }

  /** Answers come with a part inside their file. */
  ghost predicate Fits(o: Opening, w: Awakening) {
    PlanFits(TryOf(o, w).plan) && o.from.state != CLOSED
  }

  lemma OpensFits(s: Sender, buf: string, tlsAvailable: bool, w: Awakening)
    ensures Opens(s, buf, tlsAvailable, w).Some? ==> Fits(Opens(s, buf, tlsAvailable, w).value, w)
  {
    hide C.Detecting, C.Peeking, HttpRequest.ParseText, AnswerTo, HttpResponse.HeaderText, ErrorResponse, C.NoTlsPage;
    var o := Opens(s, buf, tlsAvailable, w);
    if o.Some? {
      HeaderTextNotEmpty(o.value.answer.response, w.io.date);
      forall r { AnswerFits(r, w.served, w.io.date); }
    }
  }

  /** The bytes it adds to the stream: a stub if it is to be started over, else the header
      and the body that follows it. */
  function Adds(o: Opening, w: Awakening): string
    requires Fits(o, w)
  {
    var p := TryOf(o, w).plan;
    if w.after.state == PARSING then Stub(o.from.tls, TryOf(o, w)) else p.header + BodySent(Held(o.from), p)
  }

  function Begun(s: Sender, buf: string, tlsAvailable: bool, w: Awakening): string {
    OpensFits(s, buf, tlsAvailable, w);
    match Opens(s, buf, tlsAvailable, w)
    case None => ""
    case Some(o) => Adds(o, w)
  }

  /** What is still owed of the response under way. */
  ghost function Owed(s: Sender): string {
    if Started(s) then Rest(s) else ""
  }

  /** Pages go out from connections that hold no file and have answered no HEAD: so they
      are never masked, and never cut to their header. */
  ghost predicate Tidy(s: Sender, buf: string) {
    C.InRequest(s) && (s.state == PARSING ==> !HttpRequest.ParseText(buf).ok) ==> !s.isHead && s.file == None
  }

  // ---- Conservation ----

  /** A connection goes from owing `before` to owing what is left of it. */
  ghost predicate Accounts(wire: string, before: string, after: Sender) {
    if after.state == CLOSED then after.wire <= wire + before
    else after.wire + Owed(after) == wire + before
  }

  lemma StepAccounts(s: Sender, io: SendIo)
    requires Sends(s)
    ensures var t := Step(s, io).next; t.state != PARSING ==> Accounts(s.wire, Rest(s), t)
  {
    hide Step, Rest;
    var t := Step(s, io).next;
    StateForward(s, io);
    StepMovesOn(s, io);
    var sent :| Moves(s, t, sent);
    if t.state == CLOSED {
      PrefixUnder(s.wire, sent, Rest(s));
    } else {
      Assoc(s.wire, sent, Rest(t));
      if Over(t) {
        RestWhenOver(t);
      }
    }
  }

  lemma RestWhenOver(t: Sender)
    requires Over(t) && t.state != CLOSED
    ensures Rest(t) == ""
  {
  }

  lemma PageAccounts(s: Sender, r: HttpResponse.Response, date: string)
    requires C.InRequest(s) && !s.isHead && s.file == None
    ensures var t := C.WithPage(s, r, date);
            Accounts(s.wire, PlanOf(Page(r), date).header + BodySent(Held(s), PlanOf(Page(r), date)), t)
  {
    hide HttpResponse.HeaderText;
    var t := C.WithPage(s, r, date);
    assert t.header[0..] == t.header && t.body[0..] == t.body;
  }

  lemma AttemptAccounts(s: Sender, t: Try)
    requires s.state == PARSING && PlanFits(t.plan)
    ensures var next := Wake(s, t.plan, t.io).next;
            var sent := if next.state == PARSING then Stub(s.tls, t) else t.plan.header + BodySent(Held(s), t.plan);
            Accounts(s.wire, sent, next)
  {
    hide SendHeaders, Held, BodySent, Stub;
    var next := Wake(s, t.plan, t.io).next;
    AttemptMade(s, t);
    if next.state == PARSING {
      RightUnit(next.wire);
    } else {
      PreparedOwes(s, t.plan);
      StepAccounts(Prepared(s, t.plan), t.io);
    }
  }

  /** A reply adds what it starts. */
  lemma ReplyAccounts(s: Sender, text: string, w: Awakening)
    requires s.state == PARSING && (!HttpRequest.ParseText(text).ok ==> !s.isHead && s.file == None)
    requires w.after == C.Reply(s, text, w.served, w.io).next
    ensures match OpensOn(s, text, w.served)
            case None => Accounts(s.wire, "", w.after)
            case Some(o) => Fits(o, w) && Accounts(s.wire, Adds(o, w), w.after)
  {
    hide HttpRequest.ParseText, AnswerTo, ErrorResponse, Wake, HttpResponse.HeaderText, BodySent, Stub, Held;
    var p := HttpRequest.ParseText(text);
    RightUnit(s.wire);
    if !p.ok {
      HeaderTextNotEmpty(ErrorResponse(HttpResponse.BAD_REQUEST, false), w.io.date);
      PageAccounts(s, ErrorResponse(HttpResponse.BAD_REQUEST, false), w.io.date);
    } else if p.request.verb != HttpRequest.UNKNOWN {
      AnswerFits(p.request, w.served, w.io.date);
      AttemptAccounts(s, Try(PlanOf(AnswerTo(p.request, w.served), w.io.date), w.io.send));
    }
  }

  lemma ReadAccounts(s: Sender, r: Reading.ReadStepResult, w: Awakening)
    requires s.state == READING || s.state == KEEP_ALIVE
    requires s.bodySent == 0 && s.chunkSent == s.chunkUsed && !s.isHead && s.file == None
    requires w.after == C.ReadThenReply(s, r, w.served, w.io).next
    ensures match OpensAfterRead(s, r.next, w.served)
            case None => Accounts(s.wire, "", w.after)
            case Some(o) => Fits(o, w) && Accounts(s.wire, Adds(o, w), w.after)
  {
    hide C.Reply, OpensOn;
    RightUnit(s.wire);
    if r.next.state == PARSING {
      ReplyAccounts(s.(state := PARSING), r.next.buf, w);
    }
  }

  lemma HandshakeAccounts(s: Sender, w: Awakening)
    requires s.state == TLS_ACCEPT && !s.isHead && s.file == None
    requires w.after == C.Handshaking(s, w.io.handshake, w.io.date).next
    ensures w.after.state != PARSING
    ensures w.io.handshake != HandshakeFailed ==> Accounts(s.wire, "", w.after) && w.after.state != SENDING_HEADERS
    ensures w.io.handshake == HandshakeFailed ==>
              var o := Opening(s, Page(ErrorResponse(HttpResponse.INTERNAL_ERROR, false)), "");
              Fits(o, w) && Accounts(s.wire, Adds(o, w), w.after) && w.after.state == SENDING_HEADERS
  {
    hide ErrorResponse, HttpResponse.HeaderText, BodySent, Stub, Held;
    RightUnit(s.wire);
    HeaderTextNotEmpty(ErrorResponse(HttpResponse.INTERNAL_ERROR, false), w.io.date);
    PageAccounts(s, ErrorResponse(HttpResponse.INTERNAL_ERROR, false), w.io.date);
  }

  lemma PeekAccounts(s: Sender, tlsAvailable: bool, w: Awakening)
    requires s.state == PROTO_DETECT && !s.isHead && s.file == None
    ensures var t := C.Peeking(s, tlsAvailable, w.io.peek, w.io.date).next;
            && t.wire == s.wire && t.tls in {s.tls, false}
            && (t.state == TLS_ACCEPT ==> t == s.(state := TLS_ACCEPT))
            && (t.state == SENDING_HEADERS && w.after == t ==>
                  var o := Opening(s, Page(C.NoTlsPage()), ""); Fits(o, w) && Accounts(s.wire, Adds(o, w), t))
            && (t.state != SENDING_HEADERS ==> Accounts(s.wire, "", t))
  {
    hide C.NoTlsPage, HttpResponse.HeaderText, BodySent, Stub, Held;
    RightUnit(s.wire);
    HeaderTextNotEmpty(C.NoTlsPage(), w.io.date);
    PageAccounts(s, C.NoTlsPage(), w.io.date);
  }

  lemma DetectAccounts(s: Sender, tlsAvailable: bool, w: Awakening)
    requires s.state == PROTO_DETECT && !s.isHead && s.file == None
    requires w.after == C.Detecting(s, tlsAvailable, w.io).next
    ensures Accounts(s.wire, Begun(s, "", tlsAvailable, w), w.after)
  {
    hide C.Peeking, C.Handshaking, ErrorResponse, C.NoTlsPage, Accounts;
    OpensFits(s, "", tlsAvailable, w);
    var t := C.Peeking(s, tlsAvailable, w.io.peek, w.io.date).next;
    PeekAccounts(s, tlsAvailable, w);
    if t.state == TLS_ACCEPT && !t.tls {
      HandshakeAccounts(t.(tls := true), w);
      SamePage(s, t.(tls := true), w);
    }
  }

  /** A page's bytes do not depend on the TLS flag or the state it is started from. */
  lemma SamePage(s: Sender, t: Sender, w: Awakening)
    requires s.file == None && t.file == None && s.state != CLOSED && t.state != CLOSED && w.after.state != PARSING
    ensures var a := Page(ErrorResponse(HttpResponse.INTERNAL_ERROR, false));
            Fits(Opening(t, a, ""), w) ==>
              Fits(Opening(s, a, ""), w) && Adds(Opening(s, a, ""), w) == Adds(Opening(t, a, ""), w)
  {
    hide ErrorResponse, HttpResponse.HeaderText;
  }

  /** One wakeup: what was owed and what it starts is on the wire or owed afterwards; a
      connection that closes has sent a prefix. */
  lemma WakeupAccounts(s: Sender, buf: string, tlsAvailable: bool, w: Awakening)
    requires Tidy(s, buf) && Wakes(s, buf, tlsAvailable, w)
    ensures Accounts(s.wire, Owed(s) + Begun(s, buf, tlsAvailable, w), w.after)
  {
    hide Wakes, Accounts, Owed, Begun, Tidy;
    if Sends(s) {
      SendingAccounts(s, buf, tlsAvailable, w);
    } else if s.state == READING || s.state == KEEP_ALIVE {
      ReadingAccounts(s, buf, tlsAvailable, w);
    } else {
      OpeningAccounts(s, buf, tlsAvailable, w);
    }
  }

  lemma SendingAccounts(s: Sender, buf: string, tlsAvailable: bool, w: Awakening)
    requires Tidy(s, buf) && Wakes(s, buf, tlsAvailable, w) && Sends(s)
    ensures Accounts(s.wire, Owed(s) + Begun(s, buf, tlsAvailable, w), w.after)
  {
    hide Step, C.Reply, OpensOn, Rest, Accounts, Adds;
    OpensFits(s, buf, tlsAvailable, w);
    if s.state == PARSING {
      EmptyLeft(Begun(s, buf, tlsAvailable, w));
      ReplyAccounts(s, buf, w);
    } else {
      RightUnit(Owed(s));
      StateForward(s, w.io.send);
      StepAccounts(s, w.io.send);
    }
  }

  lemma ReadingAccounts(s: Sender, buf: string, tlsAvailable: bool, w: Awakening)
    requires Tidy(s, buf) && Wakes(s, buf, tlsAvailable, w) && (s.state == READING || s.state == KEEP_ALIVE)
    ensures Accounts(s.wire, Owed(s) + Begun(s, buf, tlsAvailable, w), w.after)
  {
    hide C.Reply, C.ReadThenReply, OpensAfterRead, Rest, Accounts, Adds;
    OpensFits(s, buf, tlsAvailable, w);
    EmptyLeft(Begun(s, buf, tlsAvailable, w));
    if s.state == READING {
      ReadAccounts(s, Reading.ReadStep(Reading.Reader(READING, buf), s.tls, w.io.read), w);
    } else {
      ReadAccounts(Cleared(s), Reading.ReadStep(Reading.Reader(KEEP_ALIVE, ""), s.tls, w.io.read), w);
    }
  }

  lemma OpeningAccounts(s: Sender, buf: string, tlsAvailable: bool, w: Awakening)
    requires Tidy(s, buf) && Wakes(s, buf, tlsAvailable, w)
    requires s.state == PROTO_DETECT || s.state == TLS_ACCEPT || s.state == CLOSED
    ensures Accounts(s.wire, Owed(s) + Begun(s, buf, tlsAvailable, w), w.after)
  {
    hide C.Detecting, C.Handshaking, OpensOn, ErrorResponse, Rest, Accounts, Adds;
    OpensFits(s, buf, tlsAvailable, w);
    EmptyLeft(Begun(s, buf, tlsAvailable, w));
    if s.state == PROTO_DETECT {
      DetectAccounts(s, tlsAvailable, w);
    } else if s.state == TLS_ACCEPT {
      HandshakeAccounts(s, w);
    } else {
      NothingAccounts(s);
    }
  }

  lemma NothingAccounts(s: Sender)
    requires !Started(s)
    ensures Accounts(s.wire, "", s)
  {
    RightUnit(s.wire);
  }

  lemma ReplyKeepsTidy(s: Sender, text: string, w: Awakening)
    requires s.state == PARSING && w.after == C.Reply(s, text, w.served, w.io).next
    ensures Tidy(w.after, text)
  {
    hide HttpRequest.ParseText, AnswerTo, ErrorResponse, SendHeaders, HttpResponse.HeaderText;
    var p := HttpRequest.ParseText(text);
    if p.ok && p.request.verb != HttpRequest.UNKNOWN {
      AnswerFits(p.request, w.served, w.io.date);
      var r := Prepared(s, PlanOf(AnswerTo(p.request, w.served), w.io.date));
      StateForward(r, w.io.send);
    }
  }

  lemma HandshakeKeepsTidy(s: Sender, buf: string, o: HandshakeOutcome, date: string)
    requires Tidy(s, buf) && s.state == TLS_ACCEPT
    ensures Tidy(C.Handshaking(s, o, date).next, buf)
  {
    hide ErrorResponse, HttpResponse.HeaderText, HttpRequest.ParseText;
  }

  lemma DetectKeepsTidy(s: Sender, buf: string, tlsAvailable: bool, io: C.Io)
    requires Tidy(s, buf) && s.state == PROTO_DETECT
    ensures Tidy(C.Detecting(s, tlsAvailable, io).next, buf)
  {
    hide C.Handshaking, C.NoTlsPage, HttpResponse.HeaderText, HttpRequest.ParseText;
    var t := C.Peeking(s, tlsAvailable, io.peek, io.date).next;
    if t.state == TLS_ACCEPT && !t.tls {
      HandshakeKeepsTidy(t.(tls := true), buf, io.handshake, io.date);
    }
  }

  lemma WakeupKeepsTidy(s: Sender, buf: string, tlsAvailable: bool, w: Awakening)
    requires Tidy(s, buf) && Wakes(s, buf, tlsAvailable, w)
    ensures Tidy(w.after, w.buf)
  {
    hide Step, C.Reply, C.ReadThenReply, C.Detecting, C.Handshaking, HttpRequest.ParseText;
    if Started(s) {
      StateForward(s, w.io.send);
    } else if s.state == PARSING {
      ReplyKeepsTidy(s, buf, w);
    } else if s.state == READING {
      ReadKeepsTidy(s, Reading.ReadStep(Reading.Reader(READING, buf), s.tls, w.io.read), w);
    } else if s.state == KEEP_ALIVE {
      ReadKeepsTidy(Cleared(s), Reading.ReadStep(Reading.Reader(KEEP_ALIVE, ""), s.tls, w.io.read), w);
    } else if s.state == PROTO_DETECT {
      DetectKeepsTidy(s, buf, tlsAvailable, w.io);
    } else if s.state == TLS_ACCEPT {
      HandshakeKeepsTidy(s, buf, w.io.handshake, w.io.date);
    }
  }

  lemma ReadKeepsTidy(s: Sender, r: Reading.ReadStepResult, w: Awakening)
    requires s.state == READING || s.state == KEEP_ALIVE
    requires s.bodySent == 0 && s.chunkSent == s.chunkUsed && !s.isHead && s.file == None
    requires w.after == C.ReadThenReply(s, r, w.served, w.io).next && w.buf == r.next.buf
    ensures Tidy(w.after, w.buf)
  {
    hide C.Reply, HttpRequest.ParseText;
    if r.next.state == PARSING {
      ReplyKeepsTidy(s.(state := PARSING), r.next.buf, w);
    }
  }

  // ---- Whole chains ----

  /** All that the wakeups add to the stream. */
  function StreamOf(s: Sender, buf: string, tlsAvailable: bool, ws: seq<Awakening>): string
    decreases |ws|
  {
    if ws == [] then ""
    else
      var n := |ws| - 1;
      StreamOf(s, buf, tlsAvailable, ws[..n]) + Begun(Last(s, ws[..n]), LastBuf(buf, ws[..n]), tlsAvailable, ws[n])
  }

  lemma {:induction false} ChainKeepsTidy(s: Sender, buf: string, tlsAvailable: bool, ws: seq<Awakening>)
    requires Tidy(s, buf) && Chain(s, buf, tlsAvailable, ws)
    ensures Tidy(Last(s, ws), LastBuf(buf, ws))
    decreases |ws|
  {
    hide Tidy, Wakes;
    if ws != [] {
      var n := |ws| - 1;
      ChainKeepsTidy(s, buf, tlsAvailable, ws[..n]);
      WakeupKeepsTidy(Last(s, ws[..n]), LastBuf(buf, ws[..n]), tlsAvailable, ws[n]);
    }
  }

  /** Conservation over any run of a connection: what its wakeups started is on the wire or
      still owed, in order, nothing lost and nothing added; a closed connection has sent a
      prefix. */
  lemma {:induction false} ChainAccounts(s: Sender, buf: string, tlsAvailable: bool, ws: seq<Awakening>)
    requires Tidy(s, buf) && Chain(s, buf, tlsAvailable, ws)
    ensures Accounts(s.wire, Owed(s) + StreamOf(s, buf, tlsAvailable, ws), Last(s, ws))
    decreases |ws|
  {
    hide Tidy, Wakes, Begun, Owed;
    if ws == [] {
      RightUnit(Owed(s));
    } else {
      var n := |ws| - 1;
      var t, b := Last(s, ws[..n]), LastBuf(buf, ws[..n]);
      ChainAccounts(s, buf, tlsAvailable, ws[..n]);
      ChainKeepsTidy(s, buf, tlsAvailable, ws[..n]);
      WakeupAccounts(t, b, tlsAvailable, ws[n]);
      var before, more := Owed(s) + StreamOf(s, buf, tlsAvailable, ws[..n]), Begun(t, b, tlsAvailable, ws[n]);
      Assoc(Owed(s), StreamOf(s, buf, tlsAvailable, ws[..n]), more);
      ClosedBeginsNothing(t, b, tlsAvailable, ws[n]);
      AccountsThen(s.wire, before, t, more, ws[n].after);
    }
  }

  lemma ClosedBeginsNothing(s: Sender, buf: string, tlsAvailable: bool, w: Awakening)
    requires Wakes(s, buf, tlsAvailable, w)
    ensures s.state == CLOSED ==> w.after == s
  {
    hide Step, C.Reply, C.ReadThenReply, C.Detecting, C.Handshaking;
  }

  lemma AccountsThen(wire: string, before: string, t: Sender, more: string, u: Sender)
    requires Accounts(wire, before, t) && Accounts(t.wire, Owed(t) + more, u)
    requires t.state == CLOSED ==> u == t
    ensures Accounts(wire, before + more, u)
  {
    hide Owed;
    Assoc(wire, before, more);
    Assoc(t.wire, Owed(t), more);
  }
}
