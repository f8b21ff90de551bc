/** Whole responses: any schedule of short writes and refusals emits the message in order,
    makes progress, and does not depend on what a recycled buffer still holds. */
module SendingRuns {
  import opened Text
  import opened States
  import opened Sending

  predicate Started(s: SenderFields) {
    s.state == SENDING_HEADERS || s.state == SENDING_BODY
  }

  predicate Over(s: SenderFields) {
    s.state == KEEP_ALIVE || s.state == CLOSED
  }

  lemma StateForward(s: Sender, io: SendIo)
    requires Sends(s)
    ensures var t := Step(s, io).next;
            t.state == s.state || t.state == SENDING_BODY || Over(t)
  {
    hide FileBytes, WriteResult, Resize, Min;
  }

  /** The wakeups of a connection that is sending, one outcome record each. */
  function Run(s: Sender, ios: seq<SendIo>): Sender
    decreases |ios|
  {
    if ios == [] || !Started(s) then s
    else
      StateForward(s, ios[0]);
      Run(Step(s, ios[0]).next, ios[1..])
  }

  lemma MovesOnNowhere(s: Sender)
    requires s.state != CLOSED
    ensures MovesOn(s, s)
  {
    MovesNothing(s, s);
  }

  lemma {:induction false} RunMovesOn(s: Sender, ios: seq<SendIo>)
    requires s.state != CLOSED
    ensures MovesOn(s, Run(s, ios))
    decreases |ios|
  {
    MovesOnNowhere(s);
    if ios != [] && Started(s) {
      var t := Step(s, ios[0]).next;
      StepMovesOn(s, ios[0]);
      if t.state != CLOSED {
        RunMovesOn(t, ios[1..]);
        MovesOnTwice(s, t, Run(t, ios[1..]));
      } else {
        assert Run(t, ios[1..]) == t;
      }
    }
  }

  lemma EmitsPrefix(s: Sender, t: Sender)
    requires s.state != CLOSED && MovesOn(s, t)
    ensures s.wire <= t.wire <= s.wire + Rest(s)
    ensures t.state == KEEP_ALIVE ==> t.wire == s.wire + Rest(s)
  {
    var sent :| Moves(s, t, sent);
    if t.state != CLOSED {
      PrefixUnder(s.wire, sent, sent + Rest(t));
    } else {
      PrefixUnder(s.wire, sent, Rest(s));
    }
    if t.state == KEEP_ALIVE {
      assert sent + "" == sent;
    }
  }

  /** Whatever the schedule, the socket has taken a prefix of what was owed, and all of it
      once the connection is back to keep-alive. */
  lemma RunEmits(s: Sender, ios: seq<SendIo>)
    requires s.state != CLOSED
    ensures var t := Run(s, ios);
            && s.wire <= t.wire <= s.wire + Rest(s)
            && (t.state == KEEP_ALIVE ==> t.wire == s.wire + Rest(s))
  {
    RunMovesOn(s, ios);
    EmitsPrefix(s, Run(s, ios));
  }

  // ---- File bodies ----

  /** The connection as `set_send_file` leaves it, at the start of the body. */
  ghost predicate SendsFile(s: Sender, file: string, start: nat, end: int) {
    && s.state == SENDING_BODY && s.file == Some(file)
    && s.chunkSent == s.chunkUsed && s.offset == start
    && s.remaining == (if end >= start then end - start + 1 else 0)
  }

  /** sendfile and the TLS chunk loop refine the same thing: emit file[start..end], which is
      nothing for an empty file. */
  lemma FileBodyEmitted(s: Sender, file: string, start: nat, end: int, ios: seq<SendIo>)
    requires SendsFile(s, file, start, end) && start <= end + 1 <= |file|
    ensures var t := Run(s, ios);
            && s.wire <= t.wire <= s.wire + file[start..end + 1]
            && (t.state == KEEP_ALIVE ==> t.wire == s.wire + file[start..end + 1])
  {
    RunEmits(s, ios);
  }

  /** A plain and a TLS connection that finish the same file part put the same bytes on
      the wire, whatever their schedules. */
  lemma PlainAndTlsAgree(p: Sender, t: Sender, file: string, start: nat, end: int,
                         ps: seq<SendIo>, ts: seq<SendIo>)
    requires SendsFile(p, file, start, end) && !p.tls
    requires SendsFile(t, file, start, end) && t.tls
    requires p.wire == t.wire && start <= end + 1 <= |file|
    requires Run(p, ps).state == KEEP_ALIVE && Run(t, ts).state == KEEP_ALIVE
    ensures Run(p, ps).wire == Run(t, ts).wire
  {
    FileBodyEmitted(p, file, start, end, ps);
    FileBodyEmitted(t, file, start, end, ts);
  }

  /** Where in the file the next byte comes from. */
  function Position(s: SenderFields): int {
    s.offset + if s.chunkSent < s.chunkUsed then s.chunkSent else 0
  }

  /** While a file part is being sent, the bytes emitted are file[start..position] and the
      offset and the remaining count meet at the end of the part. */
  ghost predicate FileProgress(s: Sender, file: string, start: nat, end: int, base: string) {
    && s.file == Some(file)
    && s.offset + s.remaining == end + 1 <= |file|
    && start <= s.offset && Position(s) <= end + 1
    && s.wire == base + file[start..Position(s)]
  }

  lemma Extend(base: string, file: string, a: nat, b: nat, c: nat)
    requires a <= b <= c <= |file|
    ensures (base + file[a..b]) + file[b..c] == base + file[a..c]
  {
    SliceSplit(file, a, b, c);
    Assoc(base, file[a..b], file[b..c]);
  }

  lemma ChunkIsFile(s: Sender, file: string, n: nat)
    requires s.state == SENDING_BODY && s.file == Some(file)
    requires s.chunkSent < s.chunkUsed && s.chunkSent + n <= s.chunkUsed
    ensures s.chunk[s.chunkSent..s.chunkSent + n] == file[Position(s)..Position(s) + n]
  {
    SliceOfSlice(s.chunk, 0, s.chunkUsed, s.chunkSent, s.chunkSent + n);
    SliceOfSlice(file, s.offset, s.offset + s.chunkUsed, s.chunkSent, s.chunkSent + n);
  }

  lemma ChunkTakenProgress(s: Sender, n: nat, file: string, start: nat, end: int, base: string)
    requires s.state == SENDING_BODY && s.chunkSent < s.chunkUsed && s.chunkSent + n <= s.chunkUsed
    requires FileProgress(s, file, start, end, base)
    ensures FileProgress(ChunkTaken(s, n), file, start, end, base)
  {
    ChunkIsFile(s, file, n);
    Extend(base, file, start, Position(s), Position(s) + n);
    assert Position(ChunkTaken(s, n)) == Position(s) + n;
  }

  lemma ChunkProgress(s: Sender, io: SendIo, file: string, start: nat, end: int, base: string)
    requires s.state == SENDING_BODY && s.chunkSent < s.chunkUsed
    requires FileProgress(s, file, start, end, base)
    ensures var t := SendChunk(s, io).next;
            t.state == SENDING_BODY ==> FileProgress(t, file, start, end, base)
  {
    hide ChunkTaken;
    var w := WriteResult(true, io.body, s.chunkUsed - s.chunkSent);
    if w.Moved? {
      ChunkTakenProgress(s, w.n, file, start, end, base);
    }
  }

  lemma FileStep(s: Sender, io: SendIo, file: string, start: nat, end: int, base: string)
    requires s.state == SENDING_BODY && FileProgress(s, file, start, end, base)
    ensures var t := Step(s, io).next;
            t.state == SENDING_BODY ==> FileProgress(t, file, start, end, base)
  {
    hide SendChunk, HeadersPart, Resize;
    if !s.tls {
      if s.remaining > 0 && io.sendfile.SentSome? {
        Extend(base, file, start, s.offset, s.offset + Min(io.sendfile.n, s.remaining));
      }
    } else if s.chunkSent < s.chunkUsed {
      ChunkProgress(s, io, file, start, end, base);
    } else {
      var n := Min(io.pread, Min(s.remaining, CHUNK_SIZE));
      if s.remaining > 0 && n > 0 {
        ChunkProgress(LoadChunk(s, n), io, file, start, end, base);
      }
    }
  }

  lemma {:induction false} FilePositionMeansEmitted(s: Sender, ios: seq<SendIo>, file: string, start: nat, end: int,
                                                    base: string)
    requires s.state == SENDING_BODY && FileProgress(s, file, start, end, base)
    ensures var t := Run(s, ios);
            t.state == SENDING_BODY ==> FileProgress(t, file, start, end, base)
    decreases |ios|
  {
    if ios != [] {
      FileStep(s, ios[0], file, start, end, base);
      StateForward(s, ios[0]);
      var t := Step(s, ios[0]).next;
      if t.state == SENDING_BODY {
        FilePositionMeansEmitted(t, ios[1..], file, start, end, base);
      }
    }
  }

  // ---- Progress ----

  /** A call that moved no byte and changed no state. */
  predicate Idle(s: SenderFields, t: SenderFields) {
    t.wire == s.wire && t.state == s.state
  }

  ghost function Weight(s: Sender): nat {
    if s.state == SENDING_BODY then |Rest(s)| + 1
    else if s.state == SENDING_HEADERS then |Rest(s)| + 2
    else 0
  }

  /** An idle call leaves the same bytes to offer; every other call lowers the weight. */
  lemma StepProgress(s: Sender, io: SendIo)
    requires Started(s)
    ensures var t := Step(s, io).next;
            if Idle(s, t) then Rest(t) == Rest(s) && Weight(t) == Weight(s)
            else Weight(t) < Weight(s)
  {
    var t := Step(s, io).next;
    StepMovesOn(s, io);
    StateForward(s, io);
    var sent :| Moves(s, t, sent);
    if t.wire == s.wire {
      assert sent == "";
    }
    if t.state != CLOSED {
      assert |Rest(s)| == |sent| + |Rest(t)|;
      EmptyLeft(Rest(t));
    }
  }

  /** The calls of a run that were not idle. */
  function BusyCalls(s: Sender, ios: seq<SendIo>): nat
    decreases |ios|
  {
    if ios == [] || !Started(s) then 0
    else
      var t := Step(s, ios[0]).next;
      (if Idle(s, t) then 0 else 1) + BusyCalls(t, ios[1..])
  }

  /** No run, however long, makes more busy calls than the weight it starts with. */
  lemma {:induction false} BusyCallsBounded(s: Sender, ios: seq<SendIo>)
    ensures BusyCalls(s, ios) + Weight(Run(s, ios)) <= Weight(s)
    decreases |ios|
  {
    if ios != [] && Started(s) {
      StepProgress(s, ios[0]);
      BusyCallsBounded(Step(s, ios[0]).next, ios[1..]);
    }
  }

  /** The outcome the call depends on lets nothing through: a refusal to retry, or zero
      bytes where some were left. */
  ghost predicate Refused(s: Sender, io: SendIo)
    requires Started(s)
  {
    if s.state == SENDING_HEADERS then
      NothingTaken(WriteResult(s.tls, io.header, |s.header| - s.headerSent), |s.header| - s.headerSent)
    else if s.file == None && s.body != "" then
      s.bodySent < |s.body| && NothingTaken(WriteResult(s.tls, io.body, |s.body| - s.bodySent), |s.body| - s.bodySent)
    else if s.tls then
      && (s.chunkSent < s.chunkUsed || (s.remaining > 0 && io.pread > 0))
      && WriteResult(true, io.body, 1).Blocked?
    else s.remaining > 0 && io.sendfile == SentSome(0)
  }

  predicate NothingTaken(t: Transfer, available: nat) {
    t.Blocked? || (t == Moved(0) && available > 0)
  }

  /** A call is idle exactly when the outcome it depends on lets nothing through. */
  lemma IdleIffRefused(s: Sender, io: SendIo)
    requires Started(s)
    ensures Idle(s, Step(s, io).next) <==> Refused(s, io)
  {
    if s.state == SENDING_HEADERS {
      HeadersIdle(s, io);
    } else if s.file == None && s.body != "" {
      MemoryIdle(s, io);
    } else if s.tls {
      TlsIdle(s, io);
    } else {
      PlainIdle(s, io);
    }
  }

  lemma HeadersIdle(s: Sender, io: SendIo)
    requires s.state == SENDING_HEADERS
    ensures Idle(s, SendHeaders(s, io).next) <==> Refused(s, io)
  {
    var h := HeadersPart(s, io.header).next;
    if h.state == SENDING_BODY {
      StateForward(h, io);
    }
  }

  lemma MemoryIdle(s: Sender, io: SendIo)
    requires s.state == SENDING_BODY && s.file == None && s.body != ""
    ensures Idle(s, SendMemory(s, io).next) <==> Refused(s, io)
  {
    var w := WriteResult(s.tls, io.body, |s.body| - s.bodySent);
    if s.bodySent < |s.body| && w.Moved? {
      assert |s.wire + s.body[s.bodySent..s.bodySent + w.n]| == |s.wire| + w.n;
      RightUnit(s.wire);
    }
  }

  lemma PlainIdle(s: Sender, io: SendIo)
    requires s.state == SENDING_BODY && !s.tls && (s.file == None ==> s.body == "")
    ensures Idle(s, SendPlain(s, io).next) <==> Refused(s, io)
  {
  }

  lemma ChunkIdle(s: Sender, io: SendIo)
    requires s.state == SENDING_BODY && s.chunkSent < s.chunkUsed
    ensures Idle(s, SendChunk(s, io).next) <==> WriteResult(true, io.body, 1).Blocked?
  {
  }

  lemma TlsIdle(s: Sender, io: SendIo)
    requires s.state == SENDING_BODY && s.tls && (s.file == None ==> s.body == "")
    ensures Idle(s, SendTls(s, io).next) <==> Refused(s, io)
  {
    hide SendChunk;
    var n := Min(io.pread, Min(s.remaining, CHUNK_SIZE));
    if s.chunkSent < s.chunkUsed {
      ChunkIdle(s, io);
    } else if s.remaining > 0 && n > 0 {
      ChunkIdle(LoadChunk(s, n), io);
    }
  }

  /** The calls of a run that were idle. */
  function IdleCalls(s: Sender, ios: seq<SendIo>): nat
    decreases |ios|
  {
    if ios == [] || !Started(s) then 0
    else
      var t := Step(s, ios[0]).next;
      (if Idle(s, t) then 1 else 0) + IdleCalls(t, ios[1..])
  }

  lemma {:induction false} CallsAreBusyOrIdle(s: Sender, ios: seq<SendIo>)
    requires Started(Run(s, ios))
    ensures |ios| == BusyCalls(s, ios) + IdleCalls(s, ios)
    decreases |ios|
  {
    if ios != [] {
      assert Started(s);
      CallsAreBusyOrIdle(Step(s, ios[0]).next, ios[1..]);
    }
  }

  /** A schedule longer than its idle calls and the weight together ends the response: the
      connection is back to keep-alive or closed. So every run with finitely many idle calls
      ends. */
  lemma SendingEnds(s: Sender, ios: seq<SendIo>)
    requires Started(s) && |ios| > IdleCalls(s, ios) + Weight(s)
    ensures Over(Run(s, ios))
  {
    BusyCallsBounded(s, ios);
    if Started(Run(s, ios)) {
      CallsAreBusyOrIdle(s, ios);
    }
    RunStaysSending(s, ios);
  }

  lemma {:induction false} RunStaysSending(s: Sender, ios: seq<SendIo>)
    requires Started(s) || Over(s)
    ensures Started(Run(s, ios)) || Over(Run(s, ios))
    decreases |ios|
  {
    if ios != [] && Started(s) {
      StateForward(s, ios[0]);
      RunStaysSending(Step(s, ios[0]).next, ios[1..]);
    }
  }

  // ---- Recycled buffers ----

  /** Two connections that differ at most in buffer contents no step may read. */
  ghost predicate Alike(a: SenderFields, b: SenderFields) {
    && b == a.(chunk := b.chunk)
    && (a.state == SENDING_BODY && a.chunkSent < a.chunkUsed ==>
          a.chunkUsed <= |a.chunk| && a.chunkUsed <= |b.chunk|
          && a.chunk[..a.chunkUsed] == b.chunk[..a.chunkUsed])
  }

  lemma LoadAlike(a: Sender, b: Sender, n: nat)
    requires Alike(a, b) && a.state == SENDING_BODY && a.tls && 0 < n <= Min(a.remaining, CHUNK_SIZE)
    ensures Alike(LoadChunk(a, n), LoadChunk(b, n))
  {
    assert LoadChunk(a, n).chunk[..n] == FileBytes(a, n);
    assert LoadChunk(b, n).chunk[..n] == FileBytes(b, n);
  }

  lemma ChunkTakenAlike(a: Sender, b: Sender, n: nat)
    requires Alike(a, b) && a.state == SENDING_BODY && a.chunkSent < a.chunkUsed && a.chunkSent + n <= a.chunkUsed
    ensures Alike(ChunkTaken(a, n), ChunkTaken(b, n))
  {
    SliceOfSlice(a.chunk, 0, a.chunkUsed, a.chunkSent, a.chunkSent + n);
    SliceOfSlice(b.chunk, 0, a.chunkUsed, a.chunkSent, a.chunkSent + n);
  }

  /** The same call on both, with the same result as far as anyone can tell. */
  ghost predicate SameOutcome(x: Outcome, y: Outcome) {
    Alike(x.next, y.next) && x.want == y.want
  }

  lemma ChunkAlike(a: Sender, b: Sender, io: SendIo)
    requires Alike(a, b) && a.state == SENDING_BODY && a.chunkSent < a.chunkUsed
    ensures SameOutcome(SendChunk(a, io), SendChunk(b, io))
  {
    hide ChunkTaken;
    var w := WriteResult(true, io.body, a.chunkUsed - a.chunkSent);
    if w.Moved? {
      ChunkTakenAlike(a, b, w.n);
    }
  }

  lemma TlsAlike(a: Sender, b: Sender, io: SendIo)
    requires Alike(a, b) && a.state == SENDING_BODY && a.tls
    ensures SameOutcome(SendTls(a, io), SendTls(b, io))
  {
    var n := Min(io.pread, Min(a.remaining, CHUNK_SIZE));
    if a.chunkSent < a.chunkUsed {
      ChunkAlike(a, b, io);
    } else if a.remaining > 0 && n > 0 {
      LoadAlike(a, b, n);
      ChunkAlike(LoadChunk(a, n), LoadChunk(b, n), io);
    }
  }

  lemma BodyTakenAlike(a: Sender, b: Sender, n: nat)
    requires Alike(a, b) && a.state == SENDING_BODY && n <= |a.body| - a.bodySent
    ensures SameOutcome(BodyTaken(a, n), BodyTaken(b, n))
  {
  }

  lemma MemoryAlike(a: Sender, b: Sender, io: SendIo)
    requires Alike(a, b) && a.state == SENDING_BODY && a.file == None && a.body != ""
    ensures SameOutcome(SendMemory(a, io), SendMemory(b, io))
  {
    hide BodyTaken;
    var w := WriteResult(a.tls, io.body, |a.body| - a.bodySent);
    if w.Moved? {
      BodyTakenAlike(a, b, w.n);
    }
  }

  lemma PlainAlike(a: Sender, b: Sender, io: SendIo)
    requires Alike(a, b) && a.state == SENDING_BODY && !a.tls
    ensures SameOutcome(SendPlain(a, io), SendPlain(b, io))
  {
  }

  lemma BodyAlike(a: Sender, b: Sender, io: SendIo)
    requires Alike(a, b) && a.state == SENDING_BODY
    ensures SameOutcome(SendBody(a, io), SendBody(b, io))
  {
    if a.file == None && a.body != "" {
      MemoryAlike(a, b, io);
    } else if a.tls {
      TlsAlike(a, b, io);
    } else {
      PlainAlike(a, b, io);
    }
  }

  lemma HeadersPartAlike(a: Sender, b: Sender, w: WriteOutcome)
    requires Alike(a, b) && InHeaders(a)
    ensures SameOutcome(HeadersPart(a, w), HeadersPart(b, w))
  {
    hide WriteResult;
  }

  lemma HeadersAlike(a: Sender, b: Sender, io: SendIo)
    requires Alike(a, b) && InHeaders(a)
    ensures SameOutcome(SendHeaders(a, io), SendHeaders(b, io))
  {
    var x, y := HeadersPart(a, io.header).next, HeadersPart(b, io.header).next;
    HeadersPartAlike(a, b, io.header);
    if x.state == SENDING_BODY {
      BodyAlike(x, y, io);
    }
  }

  lemma StepAlike(a: Sender, b: Sender, io: SendIo)
    requires Alike(a, b) && Sends(a)
    ensures SameOutcome(Step(a, io), Step(b, io))
  {
    if a.state == SENDING_BODY {
      BodyAlike(a, b, io);
    } else {
      HeadersAlike(a, b, io);
    }
  }

  // ---- The next request on the same connection ----

  /** `reset`: all but the state, the socket and the chunk buffer. */
  function Cleared(s: Sender): Sender
    requires s.state == KEEP_ALIVE
  {
    s.(header := "", headerSent := 0, isHead := false, body := "", bodySent := 0,
       file := None, offset := 0, remaining := 0, chunkUsed := 0, chunkSent := 0)
  }

  /** Waiting for a first request, or for the next one. */
  predicate Ready(s: Sender) {
    s.state == KEEP_ALIVE || (s.state == READING && s.file == None)
  }

  /** The connection once that request is read. */
  function Recycled(s: Sender): Sender
    requires Ready(s)
  {
    if s.state == READING then s.(state := PARSING) else Cleared(s).(state := PARSING)
  }

  // ---- From PARSING: a short first header write starts the response over ----

  datatype FilePart = FilePart(content: string, start: nat, end: int)

  /** What `prepare_response` hands to the sending half. */
  datatype Plan = Plan(header: string, body: string, isHead: bool, part: Option<FilePart>)

  ghost predicate PlanFits(p: Plan) {
    p.header != "" &&
    match p.part
    case None => true
    case Some(f) => f.start <= |f.content| && f.end < |f.content|
  }

  /** `set_send_file`. */
  function WithFile(s: Sender, f: FilePart): Sender
    requires s.state == PARSING && f.start <= |f.content| && f.end < |f.content|
  {
    s.(file := Some(f.content), offset := f.start,
       remaining := if f.end >= f.start then f.end - f.start + 1 else 0)
  }

  /** The response built, its headers unsent. Without a file part, a file left open by an
      earlier attempt stays. */
  function Prepared(s: Sender, p: Plan): Sender
    requires s.state == PARSING && PlanFits(p)
  {
    var t := s.(header := p.header, headerSent := 0, isHead := p.isHead, body := p.body);
    match p.part
    case None => t
    case Some(f) => WithFile(t, f)
  }

  /** The bytes of a file part. */
  function PartText(f: FilePart): string
    requires f.start <= |f.content| && f.end < |f.content|
  {
    if f.end >= f.start then f.content[f.start..f.end + 1] else ""
  }

  /** The body bytes the plan means to send. */
  function Payload(p: Plan): string
    requires PlanFits(p)
  {
    if p.isHead then ""
    else
      match p.part
      case None => p.body
      case Some(f) => PartText(f)
  }

  function Message(p: Plan): string
    requires PlanFits(p)
  {
    p.header + Payload(p)
  }

  /** What is still to be sent of a file held from an earlier attempt. */
  function Held(s: Sender): Option<string>
    requires s.state != CLOSED
  {
    if s.file == None then None else Some(s.file.value[s.offset..s.offset + s.remaining])
  }

  function HeldAfter(held: Option<string>, p: Plan): Option<string>
    requires PlanFits(p)
  {
    if p.part.Some? then Some(PartText(p.part.value)) else held
  }

  /** The body bytes that do follow the header: a held file takes the place of a page. */
  function BodySent(held: Option<string>, p: Plan): string
    requires PlanFits(p)
  {
    if p.isHead || p.part.Some? || held == None then Payload(p) else held.value
  }

  lemma PreparedOwes(s: Sender, p: Plan)
    requires s.state == PARSING && PlanFits(p)
    ensures Rest(Prepared(s, p)) == p.header + BodySent(Held(s), p)
  {
    var t := Prepared(s, p);
    assert t.header[0..] == p.header;
    assert t.body[0..] == t.body;
  }

  // ---- From PARSING: every wakeup makes an attempt of its own ----

  /** One wakeup's attempt: the response it built, and the outcomes it met. */
  datatype Try = Try(plan: Plan, io: SendIo)

  ghost predicate TriesFit(ts: seq<Try>) {
    forall i :: 0 <= i < |ts| ==> PlanFits(ts[i].plan)
  }

  /** One wakeup. As long as the state is PARSING the response is built anew first. */
  function Wake(s: Sender, p: Plan, io: SendIo): Outcome
    requires Sends(s) && PlanFits(p)
  {
    if s.state == PARSING then SendHeaders(Prepared(s, p), io) else Step(s, io)
  }

  function WakeRun(s: Sender, ts: seq<Try>): Sender
    requires TriesFit(ts)
    decreases |ts|
  {
    if ts == [] || !Sends(s) then s else WakeRun(Wake(s, ts[0].plan, ts[0].io).next, ts[1..])
  }

  lemma {:induction false} WakeRunAfterParsing(s: Sender, ts: seq<Try>, ios: seq<SendIo>)
    requires TriesFit(ts) && s.state != PARSING
    requires |ios| == |ts| && forall i :: 0 <= i < |ts| ==> ios[i] == ts[i].io
    ensures WakeRun(s, ts) == Run(s, ios)
    decreases |ts|
  {
    if ts != [] && Sends(s) {
      StateForward(s, ts[0].io);
      WakeRunAfterParsing(Step(s, ts[0].io).next, ts[1..], ios[1..]);
    }
  }

  // What follows is decided by the plans and the outcomes of the header writes alone.

  /** The attempt takes the whole header, or fails: the state is no longer PARSING. */
  predicate Leaves(tls: bool, t: Try) {
    match WriteResult(tls, t.io.header, |t.plan.header|)
    case Broken => true
    case Blocked(_) => false
    case Moved(n) => n == |t.plan.header|
  }

  /** The header bytes an attempt that does not leave PARSING puts on the wire. */
  function Stub(tls: bool, t: Try): string {
    match WriteResult(tls, t.io.header, |t.plan.header|)
    case Moved(n) => t.plan.header[..n]
    case _ => ""
  }

  /** Header bytes written by attempts that were then started over. */
  function Wasted(tls: bool, ts: seq<Try>): string {
    if ts == [] || Leaves(tls, ts[0]) then "" else Stub(tls, ts[0]) + Wasted(tls, ts[1..])
  }

  /** Until one write takes the whole header, no write takes a part of it. */
  predicate WholeHeaderFirst(tls: bool, ts: seq<Try>) {
    ts == [] || Leaves(tls, ts[0]) || (Stub(tls, ts[0]) == "" && WholeHeaderFirst(tls, ts[1..]))
  }

  /** The response of the attempt that leaves PARSING. */
  function Answered(tls: bool, ts: seq<Try>): Option<Plan> {
    if ts == [] then None
    else if Leaves(tls, ts[0]) then Some(ts[0].plan)
    else Answered(tls, ts[1..])
  }

  /** The file held when that attempt starts. */
  function HeldAt(tls: bool, held: Option<string>, ts: seq<Try>): Option<string>
    requires TriesFit(ts)
    decreases |ts|
  {
    if ts == [] || Leaves(tls, ts[0]) then held
    else HeldAt(tls, HeldAfter(held, ts[0].plan), ts[1..])
  }

  lemma {:induction false} WastedNothing(tls: bool, ts: seq<Try>)
    ensures Wasted(tls, ts) == "" <==> WholeHeaderFirst(tls, ts)
  {
    if ts != [] && !Leaves(tls, ts[0]) {
      WastedNothing(tls, ts[1..]);
    }
  }

  lemma {:induction false} AnsweredFits(tls: bool, ts: seq<Try>)
    requires TriesFit(ts)
    ensures Answered(tls, ts) != None ==> PlanFits(Answered(tls, ts).value)
  {
    if ts != [] {
      AnsweredFits(tls, ts[1..]);
    }
  }

  // ---- What an attempt does ----

  /** A header write that leaves the state as it was took less than the whole header. */
  lemma StaysInHeaders(r: Sender, io: SendIo)
    requires r.state == PARSING && r.headerSent == 0 && r.header != ""
    ensures var t := SendHeaders(r, io).next;
            match WriteResult(r.tls, io.header, |r.header|)
            case Broken => t.state == CLOSED && t.wire == r.wire
            case Blocked(_) => t == r
            case Moved(n) => if n == |r.header| then t.state != PARSING else t == HeaderTaken(r, n)
  {
    var h := HeadersPart(r, io.header).next;
    if h.state == SENDING_BODY {
      StateForward(h, io);
    }
  }

  /** A wakeup in PARSING. */
  lemma AttemptMade(s: Sender, t: Try)
    requires s.state == PARSING && PlanFits(t.plan)
    ensures var next := Wake(s, t.plan, t.io).next;
            if Leaves(s.tls, t) then next.state != PARSING
            else
              && next.state == PARSING && next.tls == s.tls
              && next.wire == s.wire + Stub(s.tls, t)
              && |Stub(s.tls, t)| == next.headerSent
              && Held(next) == HeldAfter(Held(s), t.plan)
  {
    var r := Prepared(s, t.plan);
    StaysInHeaders(r, t.io);
    RightUnit(s.wire);
    PreparedHolds(s, t.plan);
  }

  lemma PreparedHolds(s: Sender, p: Plan)
    requires s.state == PARSING && PlanFits(p)
    ensures Held(Prepared(s, p)) == HeldAfter(Held(s), p)
  {
    if p.part.Some? {
      var f := p.part.value;
      assert f.end < f.start ==> f.content[f.start..f.start] == "";
    }
  }

  /** From PARSING, a completed response has put on the wire the stubs of the attempts that
      were started over, and then the header of the attempt that got through with the body
      that was ready: its own, or what was left of a file opened for an earlier attempt. */
  lemma {:induction false} ResponseAfterWaste(s: Sender, ts: seq<Try>)
    requires s.state == PARSING && TriesFit(ts) && WakeRun(s, ts).state == KEEP_ALIVE
    ensures Answered(s.tls, ts) != None && PlanFits(Answered(s.tls, ts).value)
    ensures var p := Answered(s.tls, ts).value;
            WakeRun(s, ts).wire
            == s.wire + Wasted(s.tls, ts) + (p.header + BodySent(HeldAt(s.tls, Held(s), ts), p))
    decreases |ts|
  {
    AttemptMade(s, ts[0]);
    AnsweredFits(s.tls, ts);
    var next := Wake(s, ts[0].plan, ts[0].io).next;
    if Leaves(s.tls, ts[0]) {
      LastAttempt(s, ts);
      RightUnit(s.wire);
    } else {
      ResponseAfterWaste(next, ts[1..]);
      Assoc(s.wire, Stub(s.tls, ts[0]), Wasted(s.tls, ts[1..]));
    }
  }

  lemma LastAttempt(s: Sender, ts: seq<Try>)
    requires s.state == PARSING && TriesFit(ts) && ts != [] && WakeRun(s, ts).state == KEEP_ALIVE
    requires Wake(s, ts[0].plan, ts[0].io).next.state != PARSING
    ensures var p := ts[0].plan; WakeRun(s, ts).wire == s.wire + (p.header + BodySent(Held(s), p))
  {
    var r, io := Prepared(s, ts[0].plan), ts[0].io;
    var t := SendHeaders(r, io).next;
    var ios := seq(|ts| - 1, i requires 0 <= i < |ts| - 1 => ts[i + 1].io);
    PreparedOwes(s, ts[0].plan);
    StepMovesOn(r, io);
    WakeRunAfterParsing(t, ts[1..], ios);
    ClosedStays(t, ios);
    RunMovesOn(t, ios);
    MovesOnTwice(r, t, Run(t, ios));
    EmitsPrefix(r, Run(t, ios));
  }

  lemma ClosedStays(s: Sender, ios: seq<SendIo>)
    ensures s.state == CLOSED ==> Run(s, ios) == s
  {
  }

  // ---- When the peer gets exactly one intact response ----

  /** A serialised header: it ends with its only CRLFCRLF and does not start with a line break. */
  predicate Headed(h: string) {
    |h| >= 4 && Find(h, CRLFCRLF, 0) == |h| - 4 && NoBreak(h)
  }

  predicate NoBreak(t: string) {
    t != "" && t[0] != '\r' && t[0] != '\n'
  }

  /** A piece of a header, with something else after it, holds no CRLFCRLF of its own. */
  lemma NoEndInPiece(h: string, n: nat, t: string, j: nat)
    requires Headed(h) && n < |h| && NoBreak(t) && j < n
    ensures !MatchesAt(h[..n] + t, CRLFCRLF, j)
  {
    var s := h[..n] + t;
    if j + 4 <= n {
      assert s[j..j + 4] == h[j..j + 4];
      assert !MatchesAt(h, CRLFCRLF, j);
    } else if j + 4 <= |s| {
      assert s[j..j + 4][n - j] == t[0];
    }
  }

  lemma EndAfterPiece(h: string, n: nat, t: string, k: nat)
    requires Headed(h) && n < |h| && NoBreak(t) && Find(t, CRLFCRLF, 0) == k
    ensures Find(h[..n] + t, CRLFCRLF, 0) == n + k && NoBreak(h[..n] + t)
  {
    assert NoBreak(h[..n] + t);
    hide MatchesAt, Headed;
    var s := h[..n] + t;
    MatchInSuffix(h[..n], t, CRLFCRLF, k);
    forall j | 0 <= j < n + k ensures !MatchesAt(s, CRLFCRLF, j) {
      if j < n {
        NoEndInPiece(h, n, t, j);
      } else {
        var i := j - n;
        assert !MatchesAt(t, CRLFCRLF, i);
        MatchInSuffix(h[..n], t, CRLFCRLF, i);
      }
    }
    FindIs(s, CRLFCRLF, 0, n + k);
  }

  lemma {:induction false} EndAfterWaste(tls: bool, ts: seq<Try>, t: string, k: nat)
    requires forall i :: 0 <= i < |ts| ==> Headed(ts[i].plan.header)
    requires NoBreak(t) && Find(t, CRLFCRLF, 0) == k
    ensures Find(Wasted(tls, ts) + t, CRLFCRLF, 0) == |Wasted(tls, ts)| + k && NoBreak(Wasted(tls, ts) + t)
  {
    if ts == [] || Leaves(tls, ts[0]) {
      EmptyLeft(t);
    } else {
      var stub, waste := Stub(tls, ts[0]), Wasted(tls, ts[1..]);
      var h := ts[0].plan.header;
      EndAfterWaste(tls, ts[1..], t, k);
      assert stub == h[..|stub|] && |stub| < |h|;
      EndAfterPiece(h, |stub|, waste + t, |waste| + k);
      Assoc(stub, waste, t);
    }
  }

  /** A held file that is not the page itself spoils an answer without a file of its own. */
  predicate Unmasked(held: Option<string>, p: Plan) {
    p.isHead || p.part.Some? || held == None || held == Some(p.body)
  }

  lemma UnmaskedSendsPayload(held: Option<string>, p: Plan)
    requires PlanFits(p)
    ensures BodySent(held, p) == Payload(p) <==> Unmasked(held, p)
  {
    assert held != None ==> held == Some(held.value);
  }

  /** The response reaches the peer intact exactly when the first header write that takes
      anything takes all of it, and no file opened for an earlier attempt is left in the way
      of an answer that has none. */
  lemma IntactIff(s: Sender, ts: seq<Try>)
    requires s.state == PARSING && TriesFit(ts) && WakeRun(s, ts).state == KEEP_ALIVE
    requires forall i :: 0 <= i < |ts| ==> Headed(ts[i].plan.header)
    ensures Answered(s.tls, ts) != None && PlanFits(Answered(s.tls, ts).value)
    ensures var p := Answered(s.tls, ts).value;
            WakeRun(s, ts).wire == s.wire + Message(p)
            <==> WholeHeaderFirst(s.tls, ts) && Unmasked(HeldAt(s.tls, Held(s), ts), p)
  {
    ResponseAfterWaste(s, ts);
    AnsweredHeaded(s.tls, ts);
    var p := Answered(s.tls, ts).value;
    var held := HeldAt(s.tls, Held(s), ts);
    WastedNothing(s.tls, ts);
    UnmaskedSendsPayload(held, p);
    SameStreamIff(s.wire, s.tls, ts, p.header, BodySent(held, p), Payload(p));
  }

  lemma {:induction false} AnsweredHeaded(tls: bool, ts: seq<Try>)
    requires forall i :: 0 <= i < |ts| ==> Headed(ts[i].plan.header)
    ensures Answered(tls, ts) != None ==> Headed(Answered(tls, ts).value.header)
  {
    if ts != [] {
      AnsweredHeaded(tls, ts[1..]);
    }
  }

  lemma SameStreamIff(base: string, tls: bool, ts: seq<Try>, h: string, sent: string, meant: string)
    requires Headed(h) && forall i :: 0 <= i < |ts| ==> Headed(ts[i].plan.header)
    ensures base + Wasted(tls, ts) + (h + sent) == base + (h + meant) <==> Wasted(tls, ts) == "" && sent == meant
  {
    var waste := Wasted(tls, ts);
    FindIgnoresTail(h, sent, CRLFCRLF, 0);
    FindIgnoresTail(h, meant, CRLFCRLF, 0);
    EndAfterWaste(tls, ts, h + sent, |h| - 4);
    Assoc(base, waste, h + sent);
    if base + (waste + (h + sent)) == base + (h + meant) {
      Cancel(base, waste + (h + sent), h + meant);
      EmptyLeft(h + sent);
      Cancel(h, sent, meant);
    } else if waste == "" {
      EmptyLeft(h + sent);
    }
  }

  lemma Cancel(a: string, b: string, c: string)
    ensures a + b == a + c ==> b == c
  {
    assert (a + b)[|a|..] == b && (a + c)[|a|..] == c;
  }
}
