/** One request and its response, spread over the wakeups of a connection: exactly when the
    response arrives intact, and concrete runs in which it does not, or the slot is lost. */
module Exchanges {
  import opened Text
  import opened States
  import opened Sending
  import opened SendingRuns
  import opened Client
  import opened Responding
  import opened Wakeups
  import opened Stream
  import opened Session
  import HttpRequest
  import HttpResponse
  import ByteRange
  import FileServer
  import Reading
  import C = Connection

  /** The attempts of the wakeups: each answers with what the file system says then. */
  function Tries(r: HttpRequest.Request, ws: seq<Awakening>): seq<Try> {
    seq(|ws|, i requires 0 <= i < |ws| => TryAt(r, ws[i]))
  }

  function TryAt(r: HttpRequest.Request, w: Awakening): Try {
    Try(PlanOf(AnswerTo(r, w.served), w.io.date), w.io.send)
  }

  lemma AllTriesFit(r: HttpRequest.Request, ws: seq<Awakening>)
    ensures TriesFit(Tries(r, ws))
  {
    hide AnswerTo;
    forall i | 0 <= i < |ws| ensures PlanFits(Tries(r, ws)[i].plan) {
      AnswerFits(r, ws[i].served, ws[i].io.date);
    }
  }

  /** All but the last wakeup leave something to send. */
  ghost predicate Unfinished(ws: seq<Awakening>) {
    forall i :: 0 <= i < |ws| - 1 ==> Sends(ws[i].after)
  }

  ghost predicate Parses(text: string, r: HttpRequest.Request) {
    HttpRequest.ParseText(text) == HttpRequest.Parsed(true, r) && r.verb != HttpRequest.UNKNOWN
  }

  /** The read at the start of a wakeup brings the rest of the request text. */
  ghost predicate Arrives(s: Sender, buf: string, o: ReadOutcome, text: string)
    requires Ready(s)
  {
    var before := if s.state == READING then Reading.Reader(READING, buf) else Reading.Reader(KEEP_ALIVE, "");
    Reading.ReadStep(before, s.tls, o).next == Reading.Reader(PARSING, text)
  }

  // ---- Wakeups as attempts ----

  lemma WakeupIsWake(s: Sender, text: string, tlsAvailable: bool, w: Awakening, r: HttpRequest.Request)
    requires Sends(s) && Wakes(s, text, tlsAvailable, w) && Parses(text, r)
    ensures PlanFits(TryAt(r, w).plan)
    ensures w.after == Wake(s, TryAt(r, w).plan, w.io.send).next && w.buf == text
  {
    hide Step, AnswerTo, HttpRequest.ParseText, SendHeaders, C.WithPage;
    AnswerFits(r, w.served, w.io.date);
  }

  lemma {:induction false} WakeRunSnoc(s: Sender, ts: seq<Try>, t: Try)
    requires TriesFit(ts) && TriesFit(ts + [t]) && PlanFits(t.plan) && Sends(WakeRun(s, ts))
    ensures WakeRun(s, ts + [t]) == Wake(WakeRun(s, ts), t.plan, t.io).next
    decreases |ts|
  {
    hide Wake;
    if ts == [] {
      assert ts + [t] == [t];
      assert [t][1..] == [];
    } else {
      assert (ts + [t])[1..] == ts[1..] + [t];
      WakeRunSnoc(Wake(s, ts[0].plan, ts[0].io).next, ts[1..], t);
    }
  }

  lemma {:induction false} SendingWakeups(s: Sender, text: string, tlsAvailable: bool, ws: seq<Awakening>,
                                          r: HttpRequest.Request)
    requires Sends(s) && Chain(s, text, tlsAvailable, ws) && Unfinished(ws) && Parses(text, r)
    ensures TriesFit(Tries(r, ws)) && Last(s, ws) == WakeRun(s, Tries(r, ws)) && LastBuf(text, ws) == text
    decreases |ws|
  {
    hide Wakes, Wake, PlanOf, AnswerTo, PlanFits, Parses;
    AllTriesFit(r, ws);
    if ws == [] {
      assert Tries(r, ws) == [];
    } else {
      var n := |ws| - 1;
      var t := TryAt(r, ws[n]);
      AllTriesFit(r, ws[..n]);
      SendingWakeups(s, text, tlsAvailable, ws[..n], r);
      assert n > 0 ==> ws[..n][n - 1] == ws[n - 1];
      WakeupIsWake(Last(s, ws[..n]), text, tlsAvailable, ws[n], r);
      assert Tries(r, ws) == Tries(r, ws[..n]) + [t];
      WakeRunSnoc(s, Tries(r, ws[..n]), t);
    }
  }

  /** The wakeup that completes a request is one from PARSING with the request in the buffer. */
  lemma ArrivalIsParsing(s: Sender, buf: string, tlsAvailable: bool, w: Awakening, text: string)
    requires Ready(s) && Wakes(s, buf, tlsAvailable, w) && Arrives(s, buf, w.io.read, text)
    ensures Wakes(Recycled(s), text, tlsAvailable, w)
  {
    hide C.Reply;
  }

  lemma {:induction false} ChainFromRequest(s: Sender, buf: string, tlsAvailable: bool, ws: seq<Awakening>,
                                            text: string)
    requires Ready(s) && ws != [] && Chain(s, buf, tlsAvailable, ws) && Arrives(s, buf, ws[0].io.read, text)
    ensures Chain(Recycled(s), text, tlsAvailable, ws)
    decreases |ws|
  {
    hide Wakes, Arrives;
    var n := |ws| - 1;
    if n == 0 {
      assert ws[..0] == [];
      ArrivalIsParsing(s, buf, tlsAvailable, ws[0], text);
    } else {
      assert ws[..n][0] == ws[0];
      ChainFromRequest(s, buf, tlsAvailable, ws[..n], text);
    }
  }

  /** However an exchange is spread over wakeups, it is the run of its attempts. */
  lemma WakeupsServe(s: Sender, buf: string, tlsAvailable: bool, ws: seq<Awakening>, text: string,
                     r: HttpRequest.Request)
    requires Ready(s) && ws != [] && Chain(s, buf, tlsAvailable, ws) && Unfinished(ws)
    requires Arrives(s, buf, ws[0].io.read, text) && Parses(text, r)
    ensures TriesFit(Tries(r, ws)) && Last(s, ws) == WakeRun(Recycled(s), Tries(r, ws))
  {
    hide Arrives, Chain, Parses, Tries, Unfinished;
    ChainFromRequest(s, buf, tlsAvailable, ws, text);
    SendingWakeups(Recycled(s), text, tlsAvailable, ws, r);
  }

  // ---- Intact, exactly when ----

  lemma HeaderIsHeaded(r: HttpResponse.Response, date: string)
    requires WellFormed(r, date)
    ensures Headed(HttpResponse.HeaderText(r, date))
  {
    HeaderBlockEnd(r, date, "");
    RightUnit(HttpResponse.HeaderText(r, date));
    HeaderStart(r, date);
  }

  lemma HeaderStart(r: HttpResponse.Response, date: string)
    ensures NoBreak(HttpResponse.HeaderText(r, date))
  {
    hide HttpResponse.Reason, Decimal;
    assert JoinLines(HttpResponse.ResponseLines(r, date))
           == HttpResponse.StatusLine(r.status) + CRLF + JoinLines(HttpResponse.ResponseLines(r, date)[1..]);
  }

  lemma TriesHeaded(r: HttpRequest.Request, ws: seq<Awakening>)
    requires PlainChain(ws)
    ensures forall i :: 0 <= i < |ws| ==> Headed(Tries(r, ws)[i].plan.header)
  {
    hide AnswerTo, Headed, HttpResponse.HeaderText, WellFormed, PlainTexts;
    forall i | 0 <= i < |ws| ensures Headed(Tries(r, ws)[i].plan.header) {
      AnswerFramed(r, ws[i].served, ws[i].io.date);
      HeaderIsHeaded(AnswerTo(r, ws[i].served).response, ws[i].io.date);
    }
  }

  /** A completed exchange, whatever the file system said and the clock showed at each of
      its attempts: the response sent is that of the attempt that got its header out, and it
      arrives intact exactly when no earlier attempt got a part of one out and no file opened
      for an earlier attempt stands in for its page. Both are decided by the plans and the
      outcomes of the header writes. */
  lemma ExchangeIntactIff(s: Sender, buf: string, tlsAvailable: bool, ws: seq<Awakening>, text: string,
                          r: HttpRequest.Request)
    requires Ready(s) && ws != [] && Chain(s, buf, tlsAvailable, ws) && Unfinished(ws) && PlainChain(ws)
    requires Arrives(s, buf, ws[0].io.read, text) && Parses(text, r) && Last(s, ws).state == KEEP_ALIVE
    ensures var ts := Tries(r, ws);
            && TriesFit(ts) && Answered(s.tls, ts) != None && PlanFits(Answered(s.tls, ts).value)
            && var p := Answered(s.tls, ts).value;
               && Last(s, ws).wire == s.wire + Wasted(s.tls, ts) + (p.header + BodySent(HeldAt(s.tls, None, ts), p))
               && (Last(s, ws).wire == s.wire + Message(p)
                   <==> WholeHeaderFirst(s.tls, ts) && Unmasked(HeldAt(s.tls, None, ts), p))
  {
    hide Chain, Unfinished, PlainChain, Arrives, Parses, Tries, WakeRun, Message, Headed, BodySent, HeldAt, Wasted;
    hide Answered;
    WakeupsServe(s, buf, tlsAvailable, ws, text, r);
    TriesHeaded(r, ws);
    TriesLength(r, ws);
    ResponseAfterWaste(Recycled(s), Tries(r, ws));
    IntactIff(Recycled(s), Tries(r, ws));
  }

  lemma TriesLength(r: HttpRequest.Request, ws: seq<Awakening>)
    ensures |Tries(r, ws)| == |ws|
  {
  }

  // ---- Requests cut up between responses ----

  function Reads(ws: seq<Awakening>): seq<ReadOutcome> {
    seq(|ws|, i requires 0 <= i < |ws| => ws[i].io.read)
  }

  /** Reads without a terminator lead nowhere, and nothing of them is kept. */
  lemma {:induction false} IdleChain(s: Sender, buf: string, tlsAvailable: bool, ws: seq<Awakening>)
    requires s.state == KEEP_ALIVE && Chain(s, buf, tlsAvailable, ws)
    requires Reading.IdleRun(s.tls, Reads(ws)).state == KEEP_ALIVE
    ensures var t := Last(s, ws); t.state == KEEP_ALIVE && t.tls == s.tls && t.wire == s.wire
    ensures CleanChain(s, buf, tlsAvailable, ws) && Replies(s, buf, tlsAvailable, ws) == []
    decreases |ws|
  {
    hide Wakes, Clean, NewReply;
    if ws != [] {
      var n := |ws| - 1;
      assert Reads(ws)[..n] == Reads(ws[..n]);
      IdleChain(s, buf, tlsAvailable, ws[..n]);
      IdleWakeup(Last(s, ws[..n]), LastBuf(buf, ws[..n]), tlsAvailable, ws[n]);
    }
  }

  lemma IdleWakeup(s: Sender, buf: string, tlsAvailable: bool, w: Awakening)
    requires s.state == KEEP_ALIVE && Wakes(s, buf, tlsAvailable, w)
    requires Reading.ReadStep(Reading.Reader(KEEP_ALIVE, ""), s.tls, w.io.read).next.state == KEEP_ALIVE
    ensures w.after == Cleared(s) && Clean(s, buf, tlsAvailable, w) && NewReply(s, buf, tlsAvailable, w) == None
  {
    hide Reading.ReadStep;
  }

  /** So the request that a wakeup between responses answers is the text of the first read
      with a terminator in it, `Reading.IdleParsesOneRead`, whatever came before it. */
  lemma CutBetweenResponses(s: Sender, buf: string, tlsAvailable: bool, ws: seq<Awakening>, w: Awakening)
    requires s.state == KEEP_ALIVE && Chain(s, buf, tlsAvailable, ws)
    requires Reading.IdleRun(s.tls, Reads(ws)).state == KEEP_ALIVE
    ensures Last(s, ws).state == KEEP_ALIVE
    ensures var r := Reading.IdleRun(s.tls, Reads(ws + [w]));
            Opens(Last(s, ws), LastBuf(buf, ws), tlsAvailable, w) == OpensAfterRead(Cleared(Last(s, ws)), r, w.served)
  {
    hide Chain, OpensAfterRead, Reading.ReadStep;
    IdleChain(s, buf, tlsAvailable, ws);
    assert Reads(ws + [w])[..|ws|] == Reads(ws);
  }

  // ---- Runs that go wrong ----

  /** `GET / HTTP/1.1` with one header line. */
  const SAMPLE := HttpRequest.PrintRequest("GET", "/", "HTTP/1.1", [HttpRequest.Header("Host", "a")])

  function SampleRequest(): HttpRequest.Request {
    HttpRequest.Request(HttpRequest.GET, "GET", "/", "HTTP/1.1", [])
  }

  lemma SampleParses()
    ensures Parses(SAMPLE, SampleRequest()) && |SAMPLE| <= Reading.READ_SIZE
  {
    var h := HttpRequest.Header("Host", "a");
    NoCarriageReturn(HttpRequest.RequestLine("GET", "/", "HTTP/1.1"));
    NoCarriageReturn(HttpRequest.HeaderLine(h));
    HttpRequest.ParsePrinted("GET", "/", "HTTP/1.1", [], h, "");
    assert [] + [h] == [h];
    RightUnit(SAMPLE);
    SampleLength();
  }

  lemma SampleLength()
    ensures |SAMPLE| <= Reading.READ_SIZE
  {
    var h := HttpRequest.Header("Host", "a");
    assert [h][1..] == [];
    var lines := [HttpRequest.RequestLine("GET", "/", "HTTP/1.1"), HttpRequest.HeaderLine(h)];
    assert [lines[0]] + HttpRequest.PrintedHeaders([h]) == lines;
    assert lines[1..] == [lines[1]] && [lines[1]][1..] == [];
    assert JoinLines([lines[1]]) == lines[1] + CRLF;
    assert |JoinLines(lines)| == |lines[0]| + 2 + |lines[1]| + 2;
    assert |lines[0]| == 14 && |lines[1]| == 7;
  }

  /** The file is found and opened, but the header write is refused; when the connection is
      woken again the file is gone. The page's header goes out with the old file behind it. */
  lemma StaleFileSent(s: Sender, r: HttpRequest.Request, file: Lookup, date: string, date': string)
    requires s.state == PARSING && !s.tls && s.file == None
    requires r.verb == HttpRequest.GET && FileServer.NormalizedText(r.path) != ""
             && HttpRequest.HeaderValue(r.headers, "range") == ""
    requires file.Found? && !file.notModified && |file.content| > 0
    requires file.content != HttpResponse.ErrorBody(HttpResponse.NOT_FOUND)
    ensures var gone := PlanOf(AnswerTo(r, Missing), date');
            var ts := [Try(PlanOf(AnswerTo(r, file), date), SendIo(WouldBlock, WouldBlock, SentAll, 0)),
                       Try(gone, SendIo(Wrote(|gone.header|), WouldBlock, SentAll, 0))];
            && TriesFit(ts) && WholeHeaderFirst(s.tls, ts) && PlanFits(gone)
            && WakeRun(s, ts).state == KEEP_ALIVE
            && WakeRun(s, ts).wire == s.wire + (gone.header + file.content)
            && WakeRun(s, ts).wire != s.wire + Message(gone)
  {
    hide HttpResponse.HeaderText, HttpResponse.ErrorBody;
    AnswerFits(r, file, date);
    AnswerFits(r, Missing, date');
    var found, gone := PlanOf(AnswerTo(r, file), date), PlanOf(AnswerTo(r, Missing), date');
    var part := FilePart(file.content, 0, |file.content| - 1);
    assert found.part == Some(part) by { assert ByteRange.ParseRange("", |file.content|) == None; }
    StaleFileRun(s, found, part, gone);
  }

  /** The same of any two plans. */
  lemma StaleFileRun(s: Sender, found: Plan, part: FilePart, gone: Plan)
    requires s.state == PARSING && !s.tls && s.file == None && PlanFits(found) && PlanFits(gone)
    requires found.part == Some(part) && part.start == 0 && part.end == |part.content| - 1 && |part.content| > 0
    requires gone.part == None && !gone.isHead && gone.body != part.content
    ensures var ts := [Try(found, SendIo(WouldBlock, WouldBlock, SentAll, 0)),
                       Try(gone, SendIo(Wrote(|gone.header|), WouldBlock, SentAll, 0))];
            && TriesFit(ts) && WholeHeaderFirst(s.tls, ts)
            && WakeRun(s, ts).state == KEEP_ALIVE
            && WakeRun(s, ts).wire == s.wire + (gone.header + part.content)
            && WakeRun(s, ts).wire != s.wire + Message(gone)
  {
    hide Prepared, SendHeaders;
    var first := Try(found, SendIo(WouldBlock, WouldBlock, SentAll, 0));
    var second := Try(gone, SendIo(Wrote(|gone.header|), WouldBlock, SentAll, 0));
    var ts := [first, second];
    assert ts[1..] == [second] && [second][1..] == [];
    AttemptMade(s, first);
    var t := Wake(s, found, first.io).next;
    assert part.content[0..|part.content|] == part.content;
    SecondAttempt(t, gone);
    var u := Wake(t, gone, second.io).next;
    assert WakeRun(s, ts) == WakeRun(t, [second]) == u;
    RightUnit(s.wire);
    Cancel(s.wire, gone.header + part.content, gone.header + gone.body);
    Cancel(gone.header, part.content, gone.body);
  }

  lemma SecondAttempt(t: Sender, gone: Plan)
    requires t.state == PARSING && !t.tls && Held(t) != None && Held(t).value != "" && PlanFits(gone)
    requires gone.part == None && !gone.isHead
    ensures var u := Wake(t, gone, SendIo(Wrote(|gone.header|), WouldBlock, SentAll, 0)).next;
            u.state == KEEP_ALIVE && u.wire == t.wire + (gone.header + Held(t).value)
  {
    var r := Prepared(t, gone);
    assert r.header[0..|r.header|] == r.header;
    Assoc(t.wire, gone.header, Held(t).value);
  }

  /** One byte of the header is taken, and then a whole header: the byte stays in front of
      the response. */
  lemma TornHeaderSent(s: Sender, r: HttpRequest.Request, date: string, date': string)
    requires s.state == PARSING && s.file == None && r.verb == HttpRequest.GET
    ensures var first, page := PlanOf(AnswerTo(r, Missing), date), PlanOf(AnswerTo(r, Missing), date');
            var ts := [Try(first, SendIo(Wrote(1), WouldBlock, SentAll, 0)),
                       Try(page, SendIo(Wrote(|page.header|), Wrote(|page.body|), SentAll, 0))];
            && TriesFit(ts) && !WholeHeaderFirst(s.tls, ts) && PlanFits(page)
            && WakeRun(s, ts).state == KEEP_ALIVE
            && WakeRun(s, ts).wire == s.wire + first.header[..1] + Message(page)
            && WakeRun(s, ts).wire != s.wire + Message(page)
  {
    hide HttpResponse.HeaderText, HttpResponse.ErrorBody, FileServer.NormalizedText;
    AnswerFits(r, Missing, date);
    AnswerFits(r, Missing, date');
    HeaderTextLong(AnswerTo(r, Missing).response, date);
    TornRun(s, PlanOf(AnswerTo(r, Missing), date), PlanOf(AnswerTo(r, Missing), date'));
  }

  lemma HeaderTextLong(r: HttpResponse.Response, date: string)
    ensures |HttpResponse.HeaderText(r, date)| > 1
  {
    hide HttpResponse.Reason, Decimal, HttpResponse.LeadingLines;
  }

  /** The same of any two plans of pages. */
  lemma TornRun(s: Sender, first: Plan, page: Plan)
    requires s.state == PARSING && s.file == None && PlanFits(first) && PlanFits(page) && |first.header| > 1
    requires first.part == None && page.part == None && !page.isHead && page.body != ""
    ensures var ts := [Try(first, SendIo(Wrote(1), WouldBlock, SentAll, 0)),
                       Try(page, SendIo(Wrote(|page.header|), Wrote(|page.body|), SentAll, 0))];
            && TriesFit(ts) && !WholeHeaderFirst(s.tls, ts)
            && WakeRun(s, ts).state == KEEP_ALIVE
            && WakeRun(s, ts).wire == s.wire + first.header[..1] + Message(page)
            && WakeRun(s, ts).wire != s.wire + Message(page)
  {
    hide Prepared, SendHeaders;
    var one := Try(first, SendIo(Wrote(1), WouldBlock, SentAll, 0));
    var two := Try(page, SendIo(Wrote(|page.header|), Wrote(|page.body|), SentAll, 0));
    var ts := [one, two];
    assert ts[1..] == [two] && [two][1..] == [];
    AttemptMade(s, one);
    var t := Wake(s, first, one.io).next;
    WholePage(t, page);
    assert WakeRun(s, ts) == WakeRun(t, [two]) == Wake(t, page, two.io).next;
    assert |s.wire + first.header[..1] + Message(page)| == |s.wire| + 1 + |Message(page)|;
  }

  lemma WholePage(t: Sender, page: Plan)
    requires t.state == PARSING && t.file == None && PlanFits(page)
    requires page.part == None && !page.isHead && page.body != ""
    ensures var u := Wake(t, page, SendIo(Wrote(|page.header|), Wrote(|page.body|), SentAll, 0)).next;
            u.state == KEEP_ALIVE && u.wire == t.wire + Message(page)
  {
    var r := Prepared(t, page);
    assert r.header[0..|r.header|] == r.header && page.body[0..|page.body|] == page.body;
    Assoc(t.wire, page.header, page.body);
  }

  /** A request that arrives whole, and a header write that fails: the reply closes the
      connection within the wakeup that read the request. */
  lemma ReplyCloses(s: Sender, tlsAvailable: bool, w: Awakening)
    requires s.state == READING && Wakes(s, "", tlsAvailable, w)
    requires w.io.read == Got(SAMPLE) && w.io.send.header == WriteFailed
    ensures w.after.state == CLOSED && C.Replies(s, "", w.io)
  {
    hide HttpRequest.ParseText, AnswerTo, HttpResponse.HeaderText, C.WithPage, Step, Cleared, Held;
    SampleParses();
    EmptyLeft(SAMPLE);
    assert SAMPLE[..|SAMPLE|] == SAMPLE;
    ParsedIsTerminated(SAMPLE);
    AnswerFits(SampleRequest(), w.served, w.io.date);
    AttemptMade(s.(state := PARSING), Try(PlanOf(AnswerTo(SampleRequest(), w.served), w.io.date), w.io.send));
  }

  lemma ParsedIsTerminated(text: string)
    ensures HttpRequest.ParseText(text).ok ==> Reading.Terminated(text)
  {
  }
}
