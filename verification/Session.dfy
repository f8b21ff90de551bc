/** What a client makes of the stream: over any run of a connection it recovers the bodies,
    and exactly when a response reaches it intact. */
module Session {
  import opened Text
  import opened States
  import opened Sending
  import opened SendingRuns
  import opened Client
  import opened Responding
  import opened Wakeups
  import opened Stream
  import ByteRange
  import HttpRequest
  import HttpResponse
  import C = Connection

  // ---- The responses as the client sees them ----

  /** An answer sent, the date stamped on it, and the request text it answers. */
  datatype Told = Told(answer: Answer, date: string, text: string)

  /** The responses that the wakeups started and did not start over. */
  function Replies(s: Sender, buf: string, tlsAvailable: bool, ws: seq<Awakening>): seq<Told>
    decreases |ws|
  {
    if ws == [] then []
    else
      var n := |ws| - 1;
      match NewReply(Last(s, ws[..n]), LastBuf(buf, ws[..n]), tlsAvailable, ws[n])
      case None => Replies(s, buf, tlsAvailable, ws[..n])
      case Some(r) => Replies(s, buf, tlsAvailable, ws[..n]) + [r]
  }

  function NewReply(s: Sender, buf: string, tlsAvailable: bool, w: Awakening): Option<Told> {
    match Opens(s, buf, tlsAvailable, w)
    case None => None
    case Some(o) => if w.after.state == PARSING then None else Some(Told(o.answer, w.io.date, o.text))
  }

  /** An attempt that is started over has sent nothing, and one that goes out is not masked
      by a file held from an earlier attempt. */
  ghost predicate Clean(s: Sender, buf: string, tlsAvailable: bool, w: Awakening) {
    OpensFits(s, buf, tlsAvailable, w);
    match Opens(s, buf, tlsAvailable, w)
    case None => true
    case Some(o) =>
      if w.after.state == PARSING then Stub(o.from.tls, TryOf(o, w)) == ""
      else Unmasked(Held(o.from), TryOf(o, w).plan)
  }

  ghost predicate CleanChain(s: Sender, buf: string, tlsAvailable: bool, ws: seq<Awakening>)
    decreases |ws|
  {
    ws == []
    || (CleanChain(s, buf, tlsAvailable, ws[..|ws| - 1])
        && Clean(Last(s, ws[..|ws| - 1]), LastBuf(buf, ws[..|ws| - 1]), tlsAvailable, ws[|ws| - 1]))
  }

  ghost predicate PlainChain(ws: seq<Awakening>) {
    forall i :: 0 <= i < |ws| ==> PlainTexts(ws[i].served, ws[i].io.date)
  }

  ghost predicate AllFramed(rs: seq<Told>) {
    forall i :: 0 <= i < |rs| ==> Framed(rs[i].answer, rs[i].date)
  }

  function PlanTold(r: Told): Plan {
    PlanOf(r.answer, r.date)
  }

  function Messages(rs: seq<Told>): string
    requires AllFramed(rs)
  {
    if rs == [] then "" else Message(PlanTold(rs[0])) + Messages(rs[1..])
  }

  function Bodies(rs: seq<Told>): seq<string>
    requires AllFramed(rs)
  {
    if rs == [] then [] else [Payload(PlanTold(rs[0]))] + Bodies(rs[1..])
  }

  // ---- What the client asked ----

  /** A client that noted `asked` takes as many bytes as were sent: its note is the server's,
      or there is nothing to take either way. */
  predicate Suits(a: Answer, asked: bool) {
    asked == a.isHead || a.response.status == HttpResponse.NOT_MODIFIED || a.response.contentLength == 0
  }

  predicate AllSuit(rs: seq<Told>, asked: seq<bool>) {
    |asked| == |rs| && forall i :: 0 <= i < |rs| ==> Suits(rs[i].answer, asked[i])
  }

  lemma SuitsIff(r: Told, asked: bool)
    requires Framed(r.answer, r.date)
    ensures Suits(r.answer, asked) <==> BodyBytes(r.answer.response, asked) == |Payload(PlanTold(r))|
  {
    hide Payload;
  }

  /** An answer to a request that parses goes by its method. Anything else gets a page with
      a body, whatever was asked. */
  predicate Answers(r: Told) {
    var p := HttpRequest.ParseText(r.text);
    if p.ok then r.answer.isHead == (p.request.verb == HttpRequest.HEAD)
    else
      && !r.answer.isHead
      && r.answer.response.status != HttpResponse.NOT_MODIFIED && r.answer.response.contentLength > 0
  }

  predicate AllAnswer(rs: seq<Told>) {
    forall i :: 0 <= i < |rs| ==> Answers(rs[i])
  }

  /** So a note that is the method of a request that parses suits, and HEAD never suits the
      page for one that does not. */
  lemma SuitsMethod(r: Told, asked: bool)
    requires Answers(r)
    ensures var p := HttpRequest.ParseText(r.text);
            && (p.ok && asked == (p.request.verb == HttpRequest.HEAD) ==> Suits(r.answer, asked))
            && (!p.ok ==> (Suits(r.answer, asked) <==> !asked))
  {
  }

  predicate Parsed(text: string) {
    HttpRequest.ParseText(text).ok
  }

  /** A client that notes the methods of the requests that parse is right exactly when it
      asked HEAD with none of those that do not. */
  lemma NotesOfMethods(rs: seq<Told>, asked: seq<bool>)
    requires AllAnswer(rs) && |asked| == |rs|
    requires forall i :: 0 <= i < |rs| && Parsed(rs[i].text) ==>
                           asked[i] == (HttpRequest.ParseText(rs[i].text).request.verb == HttpRequest.HEAD)
    ensures AllSuit(rs, asked) <==> forall i :: 0 <= i < |rs| && !Parsed(rs[i].text) ==> !asked[i]
  {
    hide Answers, Suits, HttpRequest.ParseText;
    forall i | 0 <= i < |rs| ensures Suits(rs[i].answer, asked[i]) <==> Parsed(rs[i].text) || !asked[i] {
      assert Answers(rs[i]);
      SuitsMethod(rs[i], asked[i]);
    }
  }

  lemma AnswersMethod(r: HttpRequest.Request, lookup: Lookup)
    ensures AnswerTo(r, lookup).isHead == (r.verb == HttpRequest.HEAD)
  {
    hide ErrorResponse, FileResponse, ByteRange.ParseRange;
  }

  lemma PagesAnswer(date: string, text: string)
    requires !HttpRequest.ParseText(text).ok
    ensures Answers(Told(Page(ErrorResponse(HttpResponse.BAD_REQUEST, false)), date, text))
    ensures Answers(Told(Page(ErrorResponse(HttpResponse.INTERNAL_ERROR, false)), date, text))
    ensures Answers(Told(Page(C.NoTlsPage()), date, text))
  {
    hide HttpResponse.ErrorBody, HttpRequest.ParseText;
  }

  lemma EmptyUnparsed()
    ensures !HttpRequest.ParseText("").ok
  {
  }

  lemma NewReplyAnswers(s: Sender, buf: string, tlsAvailable: bool, w: Awakening)
    ensures NewReply(s, buf, tlsAvailable, w).Some? ==> Answers(NewReply(s, buf, tlsAvailable, w).value)
  {
    EmptyUnparsed();
    hide C.Detecting, C.Peeking, HttpRequest.ParseText, AnswerTo, ErrorResponse, C.NoTlsPage;
    var r := NewReply(s, buf, tlsAvailable, w);
    if r.Some? {
      var p := HttpRequest.ParseText(r.value.text);
      if p.ok {
        AnswersMethod(p.request, w.served);
      } else {
        PagesAnswer(w.io.date, r.value.text);
      }
    }
  }

  lemma {:induction false} RepliesAnswer(s: Sender, buf: string, tlsAvailable: bool, ws: seq<Awakening>)
    ensures AllAnswer(Replies(s, buf, tlsAvailable, ws))
    decreases |ws|
  {
    hide NewReply, Answers;
    if ws != [] {
      var n := |ws| - 1;
      RepliesAnswer(s, buf, tlsAvailable, ws[..n]);
      NewReplyAnswers(Last(s, ws[..n]), LastBuf(buf, ws[..n]), tlsAvailable, ws[n]);
    }
  }

  // ---- Cutting the stream ----

  /** The first response, as the client reads it. */
  lemma ReplyDeframes(r: Told, asked: bool, rest: string)
    requires Framed(r.answer, r.date)
    ensures var m := Deframe(Message(PlanTold(r)) + rest, asked);
            if Suits(r.answer, asked) then m == Some(Received(Payload(PlanTold(r)), rest))
            else m == None || m.value.body != Payload(PlanTold(r))
  {
    hide Payload, Deframe, HttpResponse.HeaderText, WellFormed;
    var body, n := Payload(PlanTold(r)), BodyBytes(r.answer.response, asked);
    SuitsIff(r, asked);
    Assoc(HttpResponse.HeaderText(r.answer.response, r.date), body, rest);
    DeframeTakes(r.answer.response, r.date, asked, body + rest);
    assert (body + rest)[..|body|] == body && (body + rest)[|body|..] == rest;
  }

  lemma DeframeFirst(stream: string, asked: seq<bool>, body: string, bodies: seq<string>)
    requires asked != []
    ensures var m := Deframe(stream, asked[0]);
            DeframeAll(stream, asked) == Some([body] + bodies)
            <==> m.Some? && m.value.body == body && DeframeAll(m.value.rest, asked[1..]) == Some(bodies)
  {
    hide Deframe;
    var m := Deframe(stream, asked[0]);
    if m.Some? && DeframeAll(m.value.rest, asked[1..]).Some? {
      var more := DeframeAll(m.value.rest, asked[1..]).value;
      assert ([m.value.body] + more)[0] == m.value.body && ([m.value.body] + more)[1..] == more;
      assert ([body] + bodies)[0] == body && ([body] + bodies)[1..] == bodies;
    }
  }

  lemma AllSuitFirst(rs: seq<Told>, asked: seq<bool>)
    requires rs != [] && asked != []
    ensures AllSuit(rs, asked) <==> Suits(rs[0].answer, asked[0]) && AllSuit(rs[1..], asked[1..])
  {
    hide Suits;
    if |rs| == |asked| && Suits(rs[0].answer, asked[0]) && AllSuit(rs[1..], asked[1..]) {
      forall i | 0 <= i < |rs| ensures Suits(rs[i].answer, asked[i]) {
        assert i > 0 ==> Suits(rs[1..][i - 1].answer, asked[1..][i - 1]);
      }
    } else if AllSuit(rs, asked) {
      forall i | 0 <= i < |rs[1..]| ensures Suits(rs[1..][i].answer, asked[1..][i]) {
        assert Suits(rs[i + 1].answer, asked[i + 1]);
      }
    }
  }

  lemma {:induction false} MessagesNotEmpty(rs: seq<Told>)
    requires AllFramed(rs) && rs != []
    ensures Messages(rs) != ""
  {
    hide WellFormed, Payload, HttpResponse.HeaderText;
    HeaderTextNotEmpty(rs[0].answer.response, rs[0].date);
  }

  /** Reading the messages with any notes whatever recovers exactly the bodies if and only if
      there is one note for each and every note suits. */
  lemma {:induction false} MessagesDeframe(rs: seq<Told>, asked: seq<bool>)
    requires AllFramed(rs)
    ensures DeframeAll(Messages(rs), asked) == Some(Bodies(rs)) <==> AllSuit(rs, asked)
  {
    hide WellFormed, PlanFits, PlanOf, Message, Payload, Deframe, Suits;
    if rs == [] {
      BodiesMatch("", asked, []);
    } else if asked == [] {
      MessagesNotEmpty(rs);
    } else {
      var rest, body := Messages(rs[1..]), Payload(PlanTold(rs[0]));
      ReplyDeframes(rs[0], asked[0], rest);
      MessagesDeframe(rs[1..], asked[1..]);
      DeframeFirst(Messages(rs), asked, body, Bodies(rs[1..]));
      AllSuitFirst(rs, asked);
    }
  }

  /** One body for each note. */
  lemma {:induction false} BodiesMatch(stream: string, asked: seq<bool>, bodies: seq<string>)
    ensures DeframeAll(stream, asked) == Some(bodies) ==> |bodies| == |asked|
    decreases |asked|
  {
    hide Deframe;
    if asked != [] && Deframe(stream, asked[0]).Some? && DeframeAll(stream, asked).Some? {
      var m := Deframe(stream, asked[0]).value;
      BodiesMatch(m.rest, asked[1..], DeframeAll(m.rest, asked[1..]).value);
    }
  }

  lemma {:induction false} MessagesSnoc(rs: seq<Told>, r: Told)
    requires AllFramed(rs) && Framed(r.answer, r.date)
    ensures AllFramed(rs + [r]) && Messages(rs + [r]) == Messages(rs) + Message(PlanTold(r))
  {
    hide WellFormed, PlanFits, PlanOf, Message;
    if rs == [] {
      assert rs + [r] == [r] && [r][1..] == [];
      RightUnit(Message(PlanTold(r)));
      EmptyLeft(Message(PlanTold(r)));
    } else {
      assert (rs + [r])[1..] == rs[1..] + [r];
      MessagesSnoc(rs[1..], r);
      Assoc(Message(PlanTold(rs[0])), Messages(rs[1..]), Message(PlanTold(r)));
    }
  }

  // ---- The stream of a clean run ----

  lemma PagesFramed(date: string)
    requires OneLine("Date: " + date)
    ensures Framed(Page(ErrorResponse(HttpResponse.BAD_REQUEST, false)), date)
    ensures Framed(Page(ErrorResponse(HttpResponse.INTERNAL_ERROR, false)), date)
    ensures Framed(Page(C.NoTlsPage()), date)
  {
    hide Framed, HttpResponse.ErrorBody;
    PageFramed(HttpResponse.BAD_REQUEST, HttpResponse.ErrorBody(HttpResponse.BAD_REQUEST), false, false, date);
    PageFramed(HttpResponse.INTERNAL_ERROR, HttpResponse.ErrorBody(HttpResponse.INTERNAL_ERROR), false, false, date);
    var note := HttpResponse.ErrorBody(HttpResponse.BAD_REQUEST) + C.NO_TLS_NOTE;
    PageFramed(HttpResponse.BAD_REQUEST, note, false, false, date);
  }

  lemma OpensFramed(s: Sender, buf: string, tlsAvailable: bool, w: Awakening)
    requires PlainTexts(w.served, w.io.date)
    ensures Opens(s, buf, tlsAvailable, w).Some? ==> Framed(Opens(s, buf, tlsAvailable, w).value.answer, w.io.date)
  {
    hide Framed, C.Detecting, C.Peeking, HttpRequest.ParseText, AnswerTo, ErrorResponse, C.NoTlsPage;
    PagesFramed(w.io.date);
    forall r { AnswerFramed(r, w.served, w.io.date); }
  }

  /** A clean wakeup adds the message of the response it tells, or nothing. */
  lemma CleanAdds(s: Sender, buf: string, tlsAvailable: bool, w: Awakening)
    requires Clean(s, buf, tlsAvailable, w) && PlainTexts(w.served, w.io.date)
    ensures match NewReply(s, buf, tlsAvailable, w)
            case None => Begun(s, buf, tlsAvailable, w) == ""
            case Some(r) => Framed(r.answer, r.date) && Begun(s, buf, tlsAvailable, w) == Message(PlanTold(r))
  {
    hide Opens, Framed, Stub, Held, BodySent, Unmasked, Payload;
    OpensFits(s, buf, tlsAvailable, w);
    OpensFramed(s, buf, tlsAvailable, w);
    var o := Opens(s, buf, tlsAvailable, w);
    if o.Some? && w.after.state != PARSING {
      UnmaskedSendsPayload(Held(o.value.from), TryOf(o.value, w).plan);
    }
  }

  lemma {:induction false} CleanStream(s: Sender, buf: string, tlsAvailable: bool, ws: seq<Awakening>)
    requires CleanChain(s, buf, tlsAvailable, ws) && PlainChain(ws)
    ensures AllFramed(Replies(s, buf, tlsAvailable, ws))
    ensures StreamOf(s, buf, tlsAvailable, ws) == Messages(Replies(s, buf, tlsAvailable, ws))
    decreases |ws|
  {
    hide Clean, Begun, NewReply, Framed, PlainTexts, Message;
    if ws != [] {
      var n := |ws| - 1;
      var t, b := Last(s, ws[..n]), LastBuf(buf, ws[..n]);
      var rs, more := Replies(s, buf, tlsAvailable, ws[..n]), NewReply(t, b, tlsAvailable, ws[n]);
      CleanStream(s, buf, tlsAvailable, ws[..n]);
      CleanAdds(t, b, tlsAvailable, ws[n]);
      if more == None {
        RightUnit(Messages(rs));
      } else {
        MessagesSnoc(rs, more.value);
      }
    }
  }

  /** For every run of a connection that starts between responses, of any length, with
      partial reads, refused reads and writes, wakeups that lead nowhere, malformed requests
      and pages: what is on the wire is a prefix of the messages told; and between responses
      a client that cuts at the first CRLFCRLF and takes Content-Length bytes, none after a
      304 or where it noted HEAD, recovers exactly their bodies, in order, with nothing left
      over, if and only if its notes suit the responses. */
  lemma SessionRecovered(s: Sender, buf: string, tlsAvailable: bool, ws: seq<Awakening>, asked: seq<bool>)
    requires !Started(s) && Tidy(s, buf) && Chain(s, buf, tlsAvailable, ws)
    requires CleanChain(s, buf, tlsAvailable, ws) && PlainChain(ws)
    ensures AllFramed(Replies(s, buf, tlsAvailable, ws)) && AllAnswer(Replies(s, buf, tlsAvailable, ws))
    ensures Last(s, ws).wire <= s.wire + Messages(Replies(s, buf, tlsAvailable, ws))
    ensures !Started(Last(s, ws)) && Last(s, ws).state != CLOSED ==>
              && s.wire <= Last(s, ws).wire
              && (DeframeAll(Last(s, ws).wire[|s.wire|..], asked) == Some(Bodies(Replies(s, buf, tlsAvailable, ws)))
                  <==> AllSuit(Replies(s, buf, tlsAvailable, ws), asked))
  {
    hide Chain, CleanChain, PlainChain, Tidy, AllFramed, Replies, DeframeAll, StreamOf, AllSuit, AllAnswer;
    CleanStream(s, buf, tlsAvailable, ws);
    ChainAccounts(s, buf, tlsAvailable, ws);
    RepliesAnswer(s, buf, tlsAvailable, ws);
    var rs := Replies(s, buf, tlsAvailable, ws);
    var t := Last(s, ws);
    EmptyLeft(Messages(rs));
    MessagesDeframe(rs, asked);
    if !Started(t) && t.state != CLOSED {
      RightUnit(t.wire);
      assert t.wire[|s.wire|..] == Messages(rs);
    }
  }
}
