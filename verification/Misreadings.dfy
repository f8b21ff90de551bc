/** Runs in which every response reaches the client intact and is misread all the same: a
    HEAD request that does not parse, or not in one read, is answered with a page and its
    body. */
module Misreadings {
  import opened Text
  import opened States
  import opened Sending
  import opened SendingRuns
  import opened Client
  import opened Responding
  import opened Wakeups
  import opened Stream
  import opened Session
  import opened Exchanges
  import HttpRequest
  import HttpResponse
  import Reading

  function RefusalPage(): Answer {
    Page(ErrorResponse(HttpResponse.BAD_REQUEST, false))
  }

  /** A client that asked HEAD takes no body from the page, and the body is left over. */
  lemma PageAfterHead(r: Told)
    requires r.answer == RefusalPage() && OneLine("Date: " + r.date)
    ensures AllFramed([r])
    ensures DeframeAll(Messages([r]), [false]) == Some(Bodies([r]))
    ensures DeframeAll(Messages([r]), [true]) == None
  {
    hide HttpResponse.ErrorBody, HttpResponse.HeaderText, WellFormed, Deframe;
    PagesFramed(r.date);
    assert [r][1..] == [] && [false][1..] == [] && [true][1..] == [];
    var response, body := r.answer.response, r.answer.response.body;
    RightUnit(Message(PlanTold(r)));
    MessagesDeframe([r], [false]);
    DeframeTakes(response, r.date, true, body);
    assert body[0..] == body;
  }

  /** What a wakeup that reads `text` whole tells when `text` does not parse. */
  lemma RefusedTells(s: Sender, buf: string, tlsAvailable: bool, w: Awakening, text: string)
    requires Ready(s) && Wakes(s, buf, tlsAvailable, w) && Arrives(s, buf, w.io.read, text)
    requires !HttpRequest.ParseText(text).ok
    ensures Clean(s, buf, tlsAvailable, w)
    ensures NewReply(s, buf, tlsAvailable, w) == Some(Told(RefusalPage(), w.io.date, text))
  {
    hide HttpRequest.ParseText, HttpResponse.HeaderText, HttpResponse.ErrorBody;
  }

  // ---- A request without header lines ----

  /** `HEAD / HTTP/1.0` and the empty line: a complete request, for HTTP/1.0 asks for no header. */
  const BARE := HttpRequest.PrintRequest("HEAD", "/", "HTTP/1.0", [])

  lemma BareArrives()
    ensures !HttpRequest.ParseText(BARE).ok && Reading.Terminated(BARE) && |BARE| <= Reading.READ_SIZE
  {
    var line := HttpRequest.RequestLine("HEAD", "/", "HTTP/1.0");
    NoCarriageReturn(line);
    RightUnit(BARE);
    HttpRequest.RequestWithoutHeadersRejected("HEAD", "/", "HTTP/1.0", "");
    assert [line] + HttpRequest.PrintedHeaders([]) == [line] && [line][1..] == [];
    assert JoinLines([line]) == line + CRLF;
    assert BARE == line + CRLF + ("" + CRLF + "");
    LastLineEnd(line, "");
  }

  /** It arrives whole on a new connection. */
  lemma BareHeadMisread(s: Sender, tlsAvailable: bool, w: Awakening)
    requires s.state == READING && s.file == None && Chain(s, "", tlsAvailable, [w])
    requires w.io.read == Got(BARE) && OneLine("Date: " + w.io.date)
    ensures CleanChain(s, "", tlsAvailable, [w])
    ensures var rs := Replies(s, "", tlsAvailable, [w]);
            && rs == [Told(RefusalPage(), w.io.date, BARE)] && AllFramed(rs)
            && DeframeAll(Messages(rs), [false]) == Some(Bodies(rs))
            && DeframeAll(Messages(rs), [true]) == None
  {
    hide HttpRequest.ParseText, BARE, Wakes, Clean, NewReply, RefusalPage;
    BareArrives();
    EmptyLeft(BARE);
    assert BARE[..|BARE|] == BARE && [w][..0] == [];
    RefusedTells(s, "", tlsAvailable, w, BARE);
    PageAfterHead(Told(RefusalPage(), w.io.date, BARE));
  }

  // ---- A request in two reads ----

  const FRONT := "HEAD / HTTP/1.1\r\nHost: a"
  const BACK := "\r\nX: b\r\n\r\n"

  /** A text that starts with a line break is never a request. */
  lemma LeadingBreakRejected(rest: string)
    ensures !HttpRequest.ParseText(CRLF + rest).ok
  {
    var text := CRLF + rest;
    var end := Find(text, CRLFCRLF, 0);
    if end >= 2 {
      var block := text[..end];
      assert MatchesAt(block, CRLF, 0);
      assert Find(block, CRLF, 0) == 0 && block[..0] == "";
    }
  }

  lemma FrontOpen()
    ensures !Reading.Terminated(FRONT)
  {
    var line, rest := "HEAD / HTTP/1.1", "Host: a";
    assert FRONT == line + CRLF + rest;
    forall j ensures !MatchesAt(FRONT, CRLFCRLF, j) {
      MatchesBlockEnd(FRONT, j);
      MatchesCrlf(FRONT, j);
      MatchesCrlf(FRONT, j + 2);
    }
  }

  lemma BackEnds()
    ensures Reading.Terminated(BACK) && !HttpRequest.ParseText(BACK).ok
  {
    assert MatchesAt(BACK, CRLFCRLF, 6);
    assert BACK == CRLF + "X: b\r\n\r\n";
    LeadingBreakRejected("X: b\r\n\r\n");
  }

  /** In one piece it is a HEAD request like any other. */
  lemma WholeParses()
    ensures HttpRequest.ParseText(FRONT + BACK).ok
            && HttpRequest.ParseText(FRONT + BACK).request.verb == HttpRequest.HEAD
  {
    var h, x := HttpRequest.Header("Host", "a"), HttpRequest.Header("X", "b");
    NoCarriageReturn(HttpRequest.RequestLine("HEAD", "/", "HTTP/1.1"));
    NoCarriageReturn(HttpRequest.HeaderLine(h));
    NoCarriageReturn(HttpRequest.HeaderLine(x));
    HttpRequest.ParsePrinted("HEAD", "/", "HTTP/1.1", [h], x, "");
    WholeIsPrinted(h, x);
    RightUnit(FRONT + BACK);
  }

  lemma WholeIsPrinted(h: HttpRequest.Header, x: HttpRequest.Header)
    requires h == HttpRequest.Header("Host", "a") && x == HttpRequest.Header("X", "b")
    ensures HttpRequest.PrintRequest("HEAD", "/", "HTTP/1.1", [h] + [x]) == FRONT + BACK
  {
    hide JoinLines, FRONT, BACK;
    assert ([h] + [x])[1..] == [x] && [x][1..] == [];
    assert HttpRequest.HeaderLine(x) == "X: b" && HttpRequest.HeaderLine(h) == "Host: a";
    assert HttpRequest.RequestLine("HEAD", "/", "HTTP/1.1") == "HEAD / HTTP/1.1";
    assert HttpRequest.PrintedHeaders([x]) == [HttpRequest.HeaderLine(x)] + HttpRequest.PrintedHeaders([]);
    assert HttpRequest.PrintedHeaders([h] + [x]) == [HttpRequest.HeaderLine(h)] + HttpRequest.PrintedHeaders([x]);
    assert HttpRequest.PrintedHeaders([h] + [x]) == ["Host: a", "X: b"];
    assert ["HEAD / HTTP/1.1"] + ["Host: a", "X: b"] == ["HEAD / HTTP/1.1", "Host: a", "X: b"];
    ThreeLines("HEAD / HTTP/1.1", "Host: a", "X: b");
    FrontAndBack();
  }

  lemma ThreeLines(a: string, b: string, c: string)
    ensures JoinLines([a, b, c]) + CRLF == (a + CRLF + b) + (CRLF + c + CRLF + CRLF)
  {
    assert [a, b, c][1..] == [b, c] && [b, c][1..] == [c] && [c][1..] == [];
    assert JoinLines([c]) == c + CRLF;
    assert JoinLines([b, c]) == b + CRLF + (c + CRLF);
    assert JoinLines([a, b, c]) == a + CRLF + (b + CRLF + (c + CRLF));
  }

  lemma FrontAndBack()
    ensures FRONT == "HEAD / HTTP/1.1" + CRLF + "Host: a"
    ensures BACK == CRLF + "X: b" + CRLF + CRLF
  {
  }

  /** Between responses the first read is forgotten, and the second is no request. */
  lemma CutHeadMisread(s: Sender, buf: string, tlsAvailable: bool, v: Awakening, w: Awakening)
    requires s.state == KEEP_ALIVE && Chain(s, buf, tlsAvailable, [v, w])
    requires v.io.read == Got(FRONT) && w.io.read == Got(BACK) && OneLine("Date: " + w.io.date)
    ensures CleanChain(s, buf, tlsAvailable, [v, w])
    ensures var rs := Replies(s, buf, tlsAvailable, [v, w]);
            && rs == [Told(RefusalPage(), w.io.date, BACK)] && AllFramed(rs)
            && DeframeAll(Messages(rs), [false]) == Some(Bodies(rs))
            && DeframeAll(Messages(rs), [true]) == None
  {
    hide HttpRequest.ParseText, Wakes, Clean, NewReply, RefusalPage, FRONT, BACK;
    ShortReads();
    assert [v, w][..1] == [v] && [v][..0] == [];
    FrontLeft(s.tls, v);
    IdleChain(s, buf, tlsAvailable, [v]);
    BackArrives(v.after, v.buf, w.io.read);
    BackEnds();
    RefusedTells(v.after, v.buf, tlsAvailable, w, BACK);
    PageAfterHead(Told(RefusalPage(), w.io.date, BACK));
  }

  lemma ShortReads()
    ensures 0 < |FRONT| <= Reading.READ_SIZE && 0 < |BACK| <= Reading.READ_SIZE
  {
  }

  lemma FrontLeft(tls: bool, v: Awakening)
    requires v.io.read == Got(FRONT)
    ensures Reading.IdleRun(tls, Reads([v])).state == KEEP_ALIVE
  {
    FrontOpen();
    Reading.IdleRead(tls, v.io.read);
    assert Reads([v])[..0] == [];
  }

  lemma BackArrives(s: Sender, buf: string, o: ReadOutcome)
    requires s.state == KEEP_ALIVE && o == Got(BACK)
    ensures Arrives(s, buf, o, BACK)
  {
    BackEnds();
    Reading.IdleRead(s.tls, o);
  }
}
