/** Runs of the event loop after which a resource is gone for good: a descriptor that nobody
    holds, and a slot that is never given back. */
module Leaks {
  import opened Text
  import opened States
  import opened Sending
  import opened SendingRuns
  import opened Responding
  import opened Wakeups
  import opened Connection
  import opened EventLoop
  import opened Journal
  import opened Exchanges
  import CP = ConnectionPool
  import HttpRequest
  import FileServer
  import ByteRange

  /** A file that is there and has changed since the client saw it. */
  predicate Present(lookup: Lookup) {
    lookup.Found? && !lookup.notModified
  }

  lemma SampleTakesFile(lookup: Lookup)
    requires Present(lookup)
    ensures AnswerTo(SampleRequest(), lookup).part.Some?
  {
    hide FileResponse, ByteRange.ParseRange;
    RootIsNormal();
  }

  lemma RootIsNormal()
    ensures FileServer.NormalizedText("/") == "/"
  {
  }

  /** The file is found and opened, but the header write is refused. */
  lemma RefusedLeavesFile(s: Sender, tlsAvailable: bool, w: Awakening)
    requires s.state == PARSING && Wakes(s, SAMPLE, tlsAvailable, w) && w.served == w.io.lookup
    requires Present(w.served) && w.io.send.header == WouldBlock
    ensures w.after.state == PARSING && w.buf == SAMPLE && w.after.file != None
  {
    hide AnswerTo, HttpRequest.ParseText, SAMPLE;
    SampleParses();
    AnswerFits(SampleRequest(), w.served, w.io.date);
    SampleTakesFile(w.served);
    AttemptMade(s, TryAt(SampleRequest(), w));
  }

  /** What the invariant says of a file in hand. */
  lemma HeldFileOpen(loop: EventLoop, conn: Connection)
    requires loop.Running() && conn in loop.slots
    ensures conn.out.file != None ==> conn.fileFd != -1
    ensures Consistent(conn.out)
  {
    hide EventLoop.RegsBut;
    loop.AboutOne(null, conn);
  }

  /** The first attempt takes the file in hand. */
  method TakesFile(loop: EventLoop, conn: Connection, io: Io)
    requires loop.Settled() && loop.HistoryOk() && conn in loop.slots
    requires conn.out.state == PARSING && conn.readBuf == SAMPLE
    requires Present(io.lookup) && io.send.header == WouldBlock
    requires 0 <= io.hint && io.hint !in loop.kernel.open
    modifies loop, loop.slots, loop.kernel, loop.pool, loop.pool.freeList
    ensures loop.Settled() && loop.HistoryOk()
    ensures conn.out.state == PARSING && conn.readBuf == SAMPLE && conn.fileFd == io.hint
    ensures loop.kernel.open.Keys <= old(loop.kernel.open.Keys) + {io.hint}
  {
    hide EventLoop.Base, EventLoop.RegsBut, EventLoop.HistoryOk, Wakes, EventLoop.Stamped, Extended;
    hide CP.ConnectionPool.Acquired;
    hide Released, EventLoop.Lost, SAMPLE, AnswerTo, HttpRequest.ParseText;
    SampleParses();
    SampleTakesFile(io.lookup);
    ghost var s := conn.out;
    ghost var w := loop.ProcessConnection(conn, io);
    RefusedLeavesFile(s, loop.tlsAvailable, w.value);
    HeldFileOpen(loop, conn);
    loop.FlushChangelist();
  }

  /** Found, header write refused, found again: the second attempt opens the file anew, and
      however long the loop runs on, the first descriptor stays open and nobody's. */
  method LosesFile(loop: EventLoop, conn: Connection, io: Io, again: Io, schedule: seq<Wakeup>)
    requires loop.Settled() && loop.HistoryOk() && conn in loop.slots
    requires conn.out.state == PARSING && conn.readBuf == SAMPLE
    requires Present(io.lookup) && io.send.header == WouldBlock && Present(again.lookup)
    requires 0 <= io.hint && io.hint !in loop.kernel.open
    requires 0 <= again.hint && again.hint !in loop.kernel.open && again.hint != io.hint
    modifies loop, loop.slots, loop.kernel, loop.pool, loop.pool.freeList
    ensures loop.Valid() && loop.Lost(io.hint)
  {
    hide EventLoop.Base, EventLoop.RegsBut, EventLoop.HistoryOk, Wakes, EventLoop.Stamped, Extended;
    hide CP.ConnectionPool.Acquired;
    hide Released, EventLoop.Lost, SAMPLE, AnswerTo, HttpRequest.ParseText;
    TakesFile(loop, conn, io);
    SampleParses();
    SampleTakesFile(again.lookup);
    ghost var w := loop.ProcessConnection(conn, again);
    ghost var rounds := loop.Run(schedule);
  }

  /** A whole request arrives and writing the header of its response fails: the slot stays
      out however long the loop runs on. */
  method StrandsSlot(loop: EventLoop, conn: Connection, io: Io, schedule: seq<Wakeup>)
    requires loop.Settled() && loop.HistoryOk() && conn in loop.slots
    requires conn.out.state == READING && conn.readBuf == ""
    requires io.read == Got(SAMPLE) && io.send.header == WriteFailed
    modifies loop, loop.slots, loop.kernel, loop.pool, loop.pool.freeList
    ensures loop.Valid() && loop.Stranded(conn)
  {
    hide EventLoop.Base, EventLoop.RegsBut, EventLoop.HistoryOk, Wakes, EventLoop.Stamped, Extended;
    hide EventLoop.FileSettled, EventLoop.SecondFile;
    hide CP.ConnectionPool.Acquired, SAMPLE, Replies;
    loop.AboutOne(null, conn);
    ghost var s := conn.out;
    ghost var w := loop.ProcessConnection(conn, io);
    ReplyCloses(s, loop.tlsAvailable, w.value);
    ghost var rounds := loop.Run(schedule);
  }
}
