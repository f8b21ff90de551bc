/** What one wakeup of the event loop does with a complete request: which descriptors it opens
    and what the client is told, for rejected paths, other methods, and files that open or do
    not. */
module Refusals {
  import opened Text
  import opened States
  import opened Sending
  import opened SendingRuns
  import opened Answers
  import opened Fields
  import opened Client
  import opened Responding
  import opened Wakeups
  import opened Serving
  import opened Connection
  import opened EventLoop
  import opened Journal
  import opened Kernel
  import CP = ConnectionPool
  import HttpRequest
  import Reading
  import Session

  /** The text that a wakeup replies to. */
  function RequestText(s: SenderFields, buf: string, io: Io): string {
    if s.state == PARSING then buf
    else Reading.ReadStep(Reading.Reader(s.state, if s.state == KEEP_ALIVE then "" else buf), s.tls, io.read).next.buf
  }

  lemma TextLeft(s: Sender, buf: string, tlsAvailable: bool, w: Awakening)
    requires Wakes(s, buf, tlsAvailable, w) && Replies(s, buf, w.io)
    ensures w.buf == RequestText(s, buf, w.io)
  {
    hide Reply, ReadThenReply;
  }

  /** What a wakeup told, as the client sees it: nothing yet while it has to start over. */
  ghost predicate Tells(s: Sender, buf: string, tlsAvailable: bool, w: Awakening, seen: Seen) {
    var reply := Session.NewReply(s, buf, tlsAvailable, w);
    if w.after.state == PARSING then reply == None
    else reply.Some? && PlanFits(Session.PlanTold(reply.value)) && SeenOf(Session.PlanTold(reply.value)) == seen
  }

  lemma RepliesAlive(s: SenderFields, buf: string, io: Io)
    requires Replies(s, buf, io)
    ensures s.state != CLOSED
  {
  }

  lemma AboutConnection(loop: EventLoop, conn: Connection)
    requires loop.Settled() && conn in loop.slots
    ensures Consistent(conn.out)
  {
    hide *;
    loop.AboutSettled();
    loop.AboutOne(null, conn);
    loop.SoundBuffers(conn);
  }

  /** One wakeup with a complete request, as the loop keeps account of it. */
  method WakeWithRequest(loop: EventLoop, conn: Connection, io: Io) returns (ghost w: Awakening)
    requires loop.Settled() && loop.HistoryOk() && conn in loop.slots && Replies(conn.out, conn.readBuf, io)
    modifies loop, loop.slots, loop.kernel, loop.pool, loop.pool.freeList
    ensures loop.Valid() && w.after == conn.out && w.io == io
    ensures Consistent(old(conn.out)) && Wakes(old(conn.out), old(conn.readBuf), loop.tlsAvailable, w)
    ensures w.buf == old(RequestText(conn.out, conn.readBuf, io))
    ensures w.served == loop.SeenAs(io.lookup, io.hint, old(loop.OpenForReply(conn)))
    ensures loop.kernel.open.Keys
            <= old(loop.kernel.open.Keys) + if loop.SecondFile(w.buf, w.served) then {io.hint} else {}
  {
    hide *;
    RepliesAlive(conn.out, conn.readBuf, io);
    AboutConnection(loop, conn);
    ghost var s, buf := conn.out, conn.readBuf;
    ghost var awake := loop.ProcessConnection(conn, io);
    w := awake.value;
    loop.AboutWakeup(conn, w, io);
    loop.AsLookedUp(conn, w, io);
    TextLeft(s, buf, loop.tlsAvailable, w);
  }

  // ---- Rejected paths ----

  lemma RejectedTells(s: Sender, buf: string, tlsAvailable: bool, w: Awakening)
    requires Wakes(s, buf, tlsAvailable, w) && Replies(s, buf, w.io) && OneLine("Date: " + w.io.date)
    requires Served(w.buf) && Rejected(HttpRequest.ParseText(w.buf).request.path)
    ensures Tells(s, buf, tlsAvailable, w, ErrorSeen(HttpRequest.ParseText(w.buf).request, "400", "Bad Request"))
    ensures AnswerTo(HttpRequest.ParseText(w.buf).request, w.served).part == None
  {
    hide Wakes, Replies, Served, Rejected, HttpRequest.ParseText, AnswerTo, ErrorSeen, SeenOf, Session.NewReply;
    ServedVerb(w.buf);
    RejectedPathTold(s, buf, tlsAvailable, w);
    RejectedIsSeen(HttpRequest.ParseText(w.buf).request, w.served, w.io.date);
  }

  lemma OpensNothing(loop: EventLoop, text: string, served: Lookup)
    requires HttpRequest.ParseText(text).ok ==> AnswerTo(HttpRequest.ParseText(text).request, served).part == None
    ensures !loop.SecondFile(text, served)
  {
    hide HttpRequest.ParseText, AnswerTo;
  }

  /** A complete GET or HEAD for a path that is rejected: nothing is opened, whatever the file
      system says, and the client is told 400. */
  method RejectsPath(loop: EventLoop, conn: Connection, io: Io) returns (ghost w: Awakening)
    requires loop.Settled() && loop.HistoryOk() && conn in loop.slots && Replies(conn.out, conn.readBuf, io)
    requires Served(RequestText(conn.out, conn.readBuf, io)) && OneLine("Date: " + io.date)
    requires Rejected(HttpRequest.ParseText(RequestText(conn.out, conn.readBuf, io)).request.path)
    modifies loop, loop.slots, loop.kernel, loop.pool, loop.pool.freeList
    ensures loop.Valid() && loop.kernel.open.Keys <= old(loop.kernel.open.Keys)
    ensures Consistent(old(conn.out)) && w.after == conn.out && w.buf == old(RequestText(conn.out, conn.readBuf, io))
    ensures Tells(old(conn.out), old(conn.readBuf), loop.tlsAvailable, w,
                  ErrorSeen(HttpRequest.ParseText(w.buf).request, "400", "Bad Request"))
  {
    hide *;
    w := WakeWithRequest(loop, conn, io);
    RejectedTells(old(conn.out), old(conn.readBuf), loop.tlsAvailable, w);
    OpensNothing(loop, w.buf, w.served);
  }

  // ---- Methods that are not served ----

  lemma OtherTells(s: Sender, buf: string, tlsAvailable: bool, w: Awakening)
    requires Wakes(s, buf, tlsAvailable, w) && Replies(s, buf, w.io)
    requires HttpRequest.ParseText(w.buf).ok && !Served(w.buf)
    ensures w.after.state == PARSING && w.after.wire == s.wire && Session.NewReply(s, buf, tlsAvailable, w) == None
    ensures AnswerTo(HttpRequest.ParseText(w.buf).request, w.served).part == None
  {
    hide Wakes, Replies, Served, HttpRequest.ParseText, ErrorResponse, Session.NewReply;
    ServedVerb(w.buf);
    OtherMethodIgnored(s, buf, tlsAvailable, w);
  }

  /** A complete request with any other method: nothing is opened, nothing is sent, nothing is
      told, and the request stays in PARSING. */
  method IgnoresMethod(loop: EventLoop, conn: Connection, io: Io) returns (ghost w: Awakening)
    requires loop.Settled() && loop.HistoryOk() && conn in loop.slots && Replies(conn.out, conn.readBuf, io)
    requires HttpRequest.ParseText(RequestText(conn.out, conn.readBuf, io)).ok
             && !Served(RequestText(conn.out, conn.readBuf, io))
    modifies loop, loop.slots, loop.kernel, loop.pool, loop.pool.freeList
    ensures loop.Valid() && loop.kernel.open.Keys <= old(loop.kernel.open.Keys)
    ensures conn.out.state == PARSING && conn.out.wire == old(conn.out.wire)
    ensures Consistent(old(conn.out)) && w.after == conn.out && w.buf == old(RequestText(conn.out, conn.readBuf, io))
    ensures Session.NewReply(old(conn.out), old(conn.readBuf), loop.tlsAvailable, w) == None
  {
    hide *;
    w := WakeWithRequest(loop, conn, io);
    OtherTells(old(conn.out), old(conn.readBuf), loop.tlsAvailable, w);
    OpensNothing(loop, w.buf, w.served);
  }

  // ---- Files that open, and files that do not ----

  /** What a wakeup told fits the request and what the file system says. */
  ghost predicate TellsFitting(s: Sender, buf: string, tlsAvailable: bool, w: Awakening, lookup: Lookup) {
    var reply := Session.NewReply(s, buf, tlsAvailable, w);
    if w.after.state == PARSING then reply == None
    else
      && reply.Some? && PlanFits(Session.PlanTold(reply.value))
      && Fitting(HttpRequest.ParseText(w.buf).request, lookup, SeenOf(Session.PlanTold(reply.value)))
  }

  lemma ReplyFits(s: Sender, buf: string, tlsAvailable: bool, w: Awakening)
    requires Wakes(s, buf, tlsAvailable, w) && Replies(s, buf, w.io) && Served(w.buf)
    requires PlainTexts(w.served, w.io.date)
    ensures TellsFitting(s, buf, tlsAvailable, w, w.served)
  {
    hide Wakes, Replies, Served, HttpRequest.ParseText, AnswerSeen, SeenOf, Session.NewReply, AnswerTo, Fitting;
    hide PlainTexts;
    ReplySeen(s, buf, tlsAvailable, w);
    AnswerIsFitting(HttpRequest.ParseText(w.buf).request, w.served, w.io.date);
  }

  /** A complete GET or HEAD for any other path is answered by what the file system says,
      provided that a file found opens: it does not without a descriptor for it, and then it
      is as if it were missing. */
  method AnswersPath(loop: EventLoop, conn: Connection, io: Io) returns (ghost w: Awakening)
    requires loop.Settled() && loop.HistoryOk() && conn in loop.slots && Replies(conn.out, conn.readBuf, io)
    requires Served(RequestText(conn.out, conn.readBuf, io)) && PlainTexts(io.lookup, io.date)
    requires !Rejected(HttpRequest.ParseText(RequestText(conn.out, conn.readBuf, io)).request.path)
    requires io.hint < 0 || io.hint !in loop.kernel.open
    modifies loop, loop.slots, loop.kernel, loop.pool, loop.pool.freeList
    ensures loop.Valid()
    ensures loop.kernel.open.Keys <= old(loop.kernel.open.Keys)
            + if io.lookup.Found? && !io.lookup.notModified && io.hint >= 0 then {io.hint} else {}
    ensures Consistent(old(conn.out)) && w.after == conn.out && w.buf == old(RequestText(conn.out, conn.readBuf, io))
    ensures TellsFitting(old(conn.out), old(conn.readBuf), loop.tlsAvailable, w,
                         if io.lookup.Found? && io.hint < 0 then Missing else io.lookup)
  {
    hide *;
    NoNewDescriptor(loop, conn, io);
    PlainMissing(io.lookup, io.date);
    w := WakeWithRequest(loop, conn, io);
    ReplyFits(old(conn.out), old(conn.readBuf), loop.tlsAvailable, w);
    OpensOnlyFiles(loop, w.buf, w.served, io.date);
  }

  lemma NoNewDescriptor(loop: EventLoop, conn: Connection, io: Io)
    requires io.hint < 0 || io.hint !in loop.kernel.open
    ensures loop.SeenAs(io.lookup, io.hint, loop.OpenForReply(conn))
            == if io.lookup.Found? && io.hint < 0 then Missing else io.lookup
  {
  }

  lemma PlainMissing(lookup: Lookup, date: string)
    requires PlainTexts(lookup, date)
    ensures PlainTexts(Missing, date)
  {
  }

  lemma OpensOnlyFiles(loop: EventLoop, text: string, served: Lookup, date: string)
    requires PlainTexts(served, date)
    requires Served(text) && !Rejected(HttpRequest.ParseText(text).request.path)
    ensures loop.SecondFile(text, served) ==> served.Found? && !served.notModified
  {
    hide HttpRequest.ParseText, AnswerTo, Served, Rejected, AnswerSeen;
    ServedVerb(text);
    if !(served.Found? && !served.notModified) {
      PageOrRefusalIsSeen(HttpRequest.ParseText(text).request, served, date);
    }
  }
}
