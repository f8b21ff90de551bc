/** The life of a connection as the sequence of its wakeups. */
module Wakeups {
  import opened Text
  import opened States
  import opened Sending
  import opened SendingRuns
  import opened Responding
  import HttpRequest
  import HttpResponse
  import Reading
  import C = Connection

  /** One wakeup: its outcomes, and the connection and buffer it leaves. */
  datatype Awakening = Awakening(io: C.Io, served: Lookup, want: Want, after: Sender, buf: string)

  function Last(s: Sender, ws: seq<Awakening>): Sender {
    if ws == [] then s else ws[|ws| - 1].after
  }

  function LastBuf(buf: string, ws: seq<Awakening>): string {
    if ws == [] then buf else ws[|ws| - 1].buf
  }

  /** The direction last waited for: a new connection waits to read, NONE changes nothing. */
  function LastWant(ws: seq<Awakening>): Want
    decreases |ws|
  {
    if ws == [] then READ
    else if ws[|ws| - 1].want != NONE then ws[|ws| - 1].want
    else LastWant(ws[..|ws| - 1])
  }

  /** `w` is a wakeup of the connection `s` with the read buffer `buf`, as
      `process_connection` works. */
  ghost predicate Wakes(s: Sender, buf: string, tlsAvailable: bool, w: Awakening) {
    C.Worked(s, buf, w.after, w.buf, w.want, tlsAvailable, w.served, w.io)
  }

  /** Consecutive wakeups of one connection. */
  ghost predicate Chain(s: Sender, buf: string, tlsAvailable: bool, ws: seq<Awakening>)
    decreases |ws|
  {
    ws == []
    || (Chain(s, buf, tlsAvailable, ws[..|ws| - 1])
        && Wakes(Last(s, ws[..|ws| - 1]), LastBuf(buf, ws[..|ws| - 1]), tlsAvailable, ws[|ws| - 1]))
  }

  lemma ChainGrows(s: Sender, buf: string, tlsAvailable: bool, ws: seq<Awakening>, w: Awakening)
    requires Chain(s, buf, tlsAvailable, ws) && Wakes(Last(s, ws), LastBuf(buf, ws), tlsAvailable, w)
    ensures Chain(s, buf, tlsAvailable, ws + [w])
    ensures Last(s, ws + [w]) == w.after && LastBuf(buf, ws + [w]) == w.buf
    ensures LastWant(ws + [w]) == if w.want == NONE then LastWant(ws) else w.want
  {
    assert (ws + [w])[..|ws|] == ws;
  }

  // ---- From the start of a connection ----

  /** A connection's life: as it was opened, its wakeups since, and when it last read. */
  datatype Story = Story(start: Sender, ws: seq<Awakening>, last: int)

  /** As it is now. */
  function Now(st: Story): Sender {
    Last(st.start, st.ws)
  }

  function NowBuf(st: Story): string {
    LastBuf("", st.ws)
  }

  /** The story goes on with a wakeup at the time `at`. */
  function Extended(st: Story, w: Awakening, at: int): Story {
    Story(st.start, st.ws + [w], if C.Touches(Now(st).state, w.after.state) then at else st.last)
  }

  /** The story leads from a newly opened connection to this one. */
  ghost predicate Tells(st: Story, tlsAvailable: bool, s: SenderFields, buf: string) {
    && st.start == C.Opened(st.start)
    && Chain(st.start, "", tlsAvailable, st.ws)
    && Now(st) == s && NowBuf(st) == buf
  }

  lemma StoryGrows(st: Story, tlsAvailable: bool, s: Sender, buf: string, w: Awakening, at: int)
    requires Tells(st, tlsAvailable, s, buf) && Wakes(s, buf, tlsAvailable, w)
    ensures Tells(Extended(st, w, at), tlsAvailable, w.after, w.buf)
    ensures LastWant(Extended(st, w, at).ws) == if w.want == NONE then LastWant(st.ws) else w.want
  {
    hide Wakes, Chain, LastWant;
    ChainGrows(st.start, "", tlsAvailable, st.ws, w);
  }

  // ---- Recycled buffers ----

  /** Connections that differ in what no later byte depends on: in the header and chunk
      buffers before a response is built, and between responses in everything but the
      socket and the TLS flag. */
  ghost predicate Twin(a: SenderFields, b: SenderFields) {
    if a.state == KEEP_ALIVE then b.state == KEEP_ALIVE && b.tls == a.tls && b.wire == a.wire
    else if Started(a) then Alike(a, b)
    else b == a.(header := b.header, headerSent := b.headerSent, chunk := b.chunk)
  }

  lemma AlikeTwin(a: SenderFields, b: SenderFields)
    requires Alike(a, b)
    ensures Twin(a, b)
  {
  }

  /** The same reply from both. */
  lemma TwinReply(a: Sender, b: Sender, text: string, served: Lookup, io: C.Io)
    requires Twin(a, b) && a.state == PARSING
    ensures Twin(C.Reply(a, text, served, io).next, C.Reply(b, text, served, io).next)
    ensures C.Reply(a, text, served, io).want == C.Reply(b, text, served, io).want
  {
    hide HttpRequest.ParseText, AnswerTo, ErrorResponse, SendHeaders, HttpResponse.HeaderText;
    var p := HttpRequest.ParseText(text);
    if p.ok && p.request.verb != HttpRequest.UNKNOWN {
      AnswerFits(p.request, served, io.date);
      TwinWake(a, b, PlanOf(AnswerTo(p.request, served), io.date), io.send);
    }
  }

  lemma TwinWake(a: Sender, b: Sender, p: Plan, io: SendIo)
    requires Twin(a, b) && a.state == PARSING && PlanFits(p)
    ensures Twin(Wake(a, p, io).next, Wake(b, p, io).next) && Wake(a, p, io).want == Wake(b, p, io).want
  {
    hide SendHeaders;
    StepAlike(Prepared(a, p), Prepared(b, p), io);
    AlikeTwin(Wake(a, p, io).next, Wake(b, p, io).next);
  }

  lemma TwinRead(a: Sender, b: Sender, r: Reading.ReadStepResult, served: Lookup, io: C.Io)
    requires a.state == READING || a.state == KEEP_ALIVE
    requires b == a.(header := b.header, headerSent := b.headerSent, chunk := b.chunk)
    requires a.bodySent == 0 && a.chunkSent == a.chunkUsed
    ensures Twin(C.ReadThenReply(a, r, served, io).next, C.ReadThenReply(b, r, served, io).next)
    ensures C.ReadThenReply(a, r, served, io).want == C.ReadThenReply(b, r, served, io).want
  {
    hide C.Reply;
    if r.next.state == PARSING {
      TwinReply(a.(state := PARSING), b.(state := PARSING), r.next.buf, served, io);
    }
  }

  lemma TwinPage(a: Sender, b: Sender, r: HttpResponse.Response, date: string)
    requires Twin(a, b) && C.InRequest(a)
    ensures Twin(C.WithPage(a, r, date), C.WithPage(b, r, date))
  {
    hide HttpResponse.HeaderText;
  }

  lemma TwinHandshake(a: Sender, b: Sender, o: HandshakeOutcome, date: string)
    requires Twin(a, b) && a.state == TLS_ACCEPT
    ensures var x, y := C.Handshaking(a, o, date), C.Handshaking(b, o, date);
            Twin(x.next, y.next) && x.want == y.want
  {
    hide ErrorResponse, C.WithPage;
    TwinPage(a, b, ErrorResponse(HttpResponse.INTERNAL_ERROR, false), date);
  }

  lemma TwinPeek(a: Sender, b: Sender, tlsAvailable: bool, o: PeekOutcome, date: string)
    requires Twin(a, b) && a.state == PROTO_DETECT
    ensures var x, y := C.Peeking(a, tlsAvailable, o, date), C.Peeking(b, tlsAvailable, o, date);
            Twin(x.next, y.next) && x.want == y.want
            && (x.next.state == TLS_ACCEPT && !x.next.tls <==> y.next.state == TLS_ACCEPT && !y.next.tls)
  {
    hide C.NoTlsPage, C.WithPage;
    TwinPage(a, b, C.NoTlsPage(), date);
  }

  lemma TwinDetecting(a: Sender, b: Sender, tlsAvailable: bool, io: C.Io)
    requires Twin(a, b) && a.state == PROTO_DETECT
    ensures var x, y := C.Detecting(a, tlsAvailable, io), C.Detecting(b, tlsAvailable, io);
            Twin(x.next, y.next) && x.want == y.want
  {
    hide C.Peeking, C.Handshaking;
    TwinPeek(a, b, tlsAvailable, io.peek, io.date);
    var x, y := C.Peeking(a, tlsAvailable, io.peek, io.date).next, C.Peeking(b, tlsAvailable, io.peek, io.date).next;
    if x.state == TLS_ACCEPT && !x.tls {
      TwinHandshake(x.(tls := true), y.(tls := true), io.handshake, io.date);
    }
  }

  /** The same wakeup of both, with the same result as far as anyone can tell. */
  lemma TwinWakeup(a: Sender, b: Sender, buf: string, tlsAvailable: bool, x: Awakening, y: Awakening)
    requires Twin(a, b) && Wakes(a, buf, tlsAvailable, x) && Wakes(b, buf, tlsAvailable, y)
    requires x.io == y.io && x.served == y.served
    ensures Twin(x.after, y.after) && x.buf == y.buf && x.want == y.want && x.after.wire == y.after.wire
  {
    hide Twin, Wakes;
    if Sends(a) {
      TwinSending(a, b, buf, tlsAvailable, x, y);
    } else if a.state == READING || a.state == KEEP_ALIVE {
      TwinReading(a, b, buf, tlsAvailable, x, y);
    } else {
      TwinOpening(a, b, buf, tlsAvailable, x, y);
    }
  }

  lemma TwinSending(a: Sender, b: Sender, buf: string, tlsAvailable: bool, x: Awakening, y: Awakening)
    requires Twin(a, b) && Wakes(a, buf, tlsAvailable, x) && Wakes(b, buf, tlsAvailable, y)
    requires x.io == y.io && x.served == y.served && Sends(a)
    ensures Twin(x.after, y.after) && x.buf == y.buf && x.want == y.want && x.after.wire == y.after.wire
  {
    hide Step, C.Reply;
    if a.state == PARSING {
      TwinReply(a, b, buf, x.served, x.io);
    } else {
      StepAlike(a, b, x.io.send);
      AlikeTwin(x.after, y.after);
    }
  }

  lemma TwinReading(a: Sender, b: Sender, buf: string, tlsAvailable: bool, x: Awakening, y: Awakening)
    requires Twin(a, b) && Wakes(a, buf, tlsAvailable, x) && Wakes(b, buf, tlsAvailable, y)
    requires x.io == y.io && x.served == y.served && (a.state == READING || a.state == KEEP_ALIVE)
    ensures Twin(x.after, y.after) && x.buf == y.buf && x.want == y.want && x.after.wire == y.after.wire
  {
    hide C.ReadThenReply;
    if a.state == READING {
      TwinRead(a, b, Reading.ReadStep(Reading.Reader(READING, buf), a.tls, x.io.read), x.served, x.io);
    } else {
      var r := Reading.ReadStep(Reading.Reader(KEEP_ALIVE, ""), a.tls, x.io.read);
      TwinRead(Cleared(a), Cleared(b), r, x.served, x.io);
    }
  }

  lemma TwinOpening(a: Sender, b: Sender, buf: string, tlsAvailable: bool, x: Awakening, y: Awakening)
    requires Twin(a, b) && Wakes(a, buf, tlsAvailable, x) && Wakes(b, buf, tlsAvailable, y)
    requires x.io == y.io && x.served == y.served && a.state in {PROTO_DETECT, TLS_ACCEPT, CLOSED}
    ensures Twin(x.after, y.after) && x.buf == y.buf && x.want == y.want && x.after.wire == y.after.wire
  {
    hide C.Detecting, C.Handshaking;
    if a.state == PROTO_DETECT {
      TwinDetecting(a, b, tlsAvailable, x.io);
    } else if a.state == TLS_ACCEPT {
      TwinHandshake(a, b, x.io.handshake, x.io.date);
    }
  }

  /** The same outcomes, wakeup by wakeup. */
  ghost predicate SameOutcomes(xs: seq<Awakening>, ys: seq<Awakening>) {
    |xs| == |ys| && forall i :: 0 <= i < |xs| ==> xs[i].io == ys[i].io && xs[i].served == ys[i].served
  }

  lemma {:induction false} TwinChains(a: Sender, b: Sender, buf: string, tlsAvailable: bool,
                                      xs: seq<Awakening>, ys: seq<Awakening>)
    requires Twin(a, b) && SameOutcomes(xs, ys)
    requires Chain(a, buf, tlsAvailable, xs) && Chain(b, buf, tlsAvailable, ys)
    ensures Twin(Last(a, xs), Last(b, ys)) && LastBuf(buf, xs) == LastBuf(buf, ys)
    ensures forall i :: 0 <= i < |xs| ==> xs[i].after.wire == ys[i].after.wire && xs[i].want == ys[i].want
    decreases |xs|
  {
    hide Wakes, Twin;
    if xs == [] {
    } else {
      var n := |xs| - 1;
      TwinChains(a, b, buf, tlsAvailable, xs[..n], ys[..n]);
      TwinWakeup(Last(a, xs[..n]), Last(b, ys[..n]), LastBuf(buf, xs[..n]), tlsAvailable, xs[n], ys[n]);
      forall i | 0 <= i < |xs|
        ensures xs[i].after.wire == ys[i].after.wire && xs[i].want == ys[i].want
      {
        assert i < n ==> xs[i] == xs[..n][i] && ys[i] == ys[..n][i];
      }
    }
  }

  lemma OpenedTwin(a: Sender, b: Sender)
    ensures Twin(C.Opened(a), C.Opened(b))
  {
  }

  lemma TwinState(a: Sender, b: Sender)
    requires Twin(a, b)
    ensures a.state == b.state && a.wire == b.wire
  {
  }

  /** A slot handed out again behaves like any other: whatever its header and chunk buffers
      still hold from earlier connections, every later byte, want and state is the same. */
  lemma RecycledLikeFresh(a: Sender, b: Sender, tlsAvailable: bool, xs: seq<Awakening>, ys: seq<Awakening>)
    requires SameOutcomes(xs, ys)
    requires Chain(C.Opened(a), "", tlsAvailable, xs) && Chain(C.Opened(b), "", tlsAvailable, ys)
    ensures forall i :: 0 <= i < |xs| ==> xs[i].after.wire == ys[i].after.wire && xs[i].want == ys[i].want
    ensures Last(C.Opened(a), xs).state == Last(C.Opened(b), ys).state
  {
    hide Chain, Alike, C.Opened, Twin;
    OpenedTwin(a, b);
    TwinChains(C.Opened(a), C.Opened(b), "", tlsAvailable, xs, ys);
    TwinState(Last(C.Opened(a), xs), Last(C.Opened(b), ys));
  }

  /** Nothing of the responses before shows in the next: between responses only the socket
      and the TLS flag count, for `reset` clears the rest. */
  lemma ResetLikeFresh(a: Sender, b: Sender, buf: string, tlsAvailable: bool, xs: seq<Awakening>, ys: seq<Awakening>)
    requires a.state == b.state == KEEP_ALIVE && a.tls == b.tls && a.wire == b.wire && SameOutcomes(xs, ys)
    requires Chain(a, buf, tlsAvailable, xs) && Chain(b, buf, tlsAvailable, ys)
    ensures forall i :: 0 <= i < |xs| ==> xs[i].after.wire == ys[i].after.wire && xs[i].want == ys[i].want
    ensures Last(a, xs).state == Last(b, ys).state
  {
    hide Chain, Alike;
    TwinChains(a, b, buf, tlsAvailable, xs, ys);
    TwinState(Last(a, xs), Last(b, ys));
  }
}
