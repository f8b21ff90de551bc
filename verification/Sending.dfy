/** The sending half of a connection as a step machine: headers, in-memory bodies,
    sendfile bodies and TLS chunks, all sent in pieces. */
module Sending {
  import opened Text
  import opened States

  const CHUNK_SIZE := 65536

  /** What the sending steps read and write. `file` is the content behind the open file
      descriptor, None when there is none; `wire` is every byte the socket took. */
  datatype SenderFields = SenderFields(
    state: State, tls: bool,
    header: string, headerSent: nat,
    isHead: bool,
    body: string, bodySent: nat,
    file: Option<string>, offset: int, remaining: int,
    chunk: string, chunkUsed: nat, chunkSent: nat,
    wire: string)

  /** The counters stay inside the buffers, the bytes left to send inside the file, and a
      chunk in flight is the next part of the file, on a TLS connection. */
  ghost predicate Consistent(s: SenderFields) {
    s.state != CLOSED ==>
      && s.headerSent <= |s.header|
      && s.bodySent <= |s.body|
      && s.chunkSent <= s.chunkUsed <= |s.chunk|
      && 0 <= s.remaining
      && (s.state != SENDING_BODY && s.state != KEEP_ALIVE ==> s.bodySent == 0 && s.chunkSent == s.chunkUsed)
      && FileConsistent(s)
  }

  ghost predicate FileConsistent(s: SenderFields) {
    match s.file
    case None => s.remaining == 0 && s.chunkSent == s.chunkUsed
    case Some(file) =>
      && 0 <= s.offset && s.offset + s.remaining <= |file|
      && (s.chunkSent < s.chunkUsed ==>
            s.tls && s.chunkUsed <= s.remaining && s.chunkUsed <= |s.chunk|
            && s.chunk[..s.chunkUsed] == file[s.offset..s.offset + s.chunkUsed])
  }

  const IDLE := SenderFields(CLOSED, false, "", 0, false, "", 0, None, 0, 0, "", 0, 0, "")

  type Sender = s: SenderFields | Consistent(s) witness IDLE

  datatype Outcome = Outcome(next: Sender, want: Want)

  predicate Sends(s: SenderFields) {
    s.state == PARSING || s.state == SENDING_HEADERS || s.state == SENDING_BODY
  }

  predicate InHeaders(s: SenderFields) {
    s.state == PARSING || s.state == SENDING_HEADERS
  }

  // ---- The steps ----

  function Close(s: Sender): Sender {
    s.(state := CLOSED, tls := false, file := None)
  }

  /** The file is all sent: it is closed and the connection waits for the next request. */
  function Finish(s: Sender): Outcome
    requires s.state != CLOSED && s.remaining == 0 && s.chunkSent == s.chunkUsed
  {
    Outcome(s.(state := KEEP_ALIVE, file := None), READ)
  }

  /** The header write: the headers go on, or end and leave the body to be sent, if any. */
  function HeadersPart(s: Sender, w: WriteOutcome): Outcome
    requires InHeaders(s)
  {
    match WriteResult(s.tls, w, |s.header| - s.headerSent)
    case Blocked(want) => Outcome(s, want)
    case Broken => Outcome(Close(s), NONE)
    case Moved(n) =>
      var t := HeaderTaken(s, n);
      if t.headerSent < |t.header| then Outcome(t, WRITE)
      else if NoBody(t) then Outcome(t.(state := KEEP_ALIVE), READ)
      else Outcome(t.(state := SENDING_BODY), WRITE)
  }

  /** The header bytes a write takes. */
  function HeaderTaken(s: Sender, n: nat): Sender
    requires InHeaders(s) && n <= |s.header| - s.headerSent
  {
    s.(headerSent := s.headerSent + n, wire := s.wire + s.header[s.headerSent..s.headerSent + n])
  }

  predicate NoBody(t: SenderFields) {
    t.isHead || (t.body == "" && t.file == None)
  }

  /** `do_send_headers`: with the last header byte taken, the body is tried at once. */
  function SendHeaders(s: Sender, io: SendIo): Outcome
    requires InHeaders(s)
  {
    var h := HeadersPart(s, io.header);
    if h.next.state == SENDING_BODY then SendBody(h.next, io) else h
  }

  function SendBody(s: Sender, io: SendIo): Outcome
    requires s.state == SENDING_BODY
  {
    if s.file == None && s.body != "" then SendMemory(s, io)
    else if s.tls then SendTls(s, io)
    else SendPlain(s, io)
  }

  function SendMemory(s: Sender, io: SendIo): Outcome
    requires s.state == SENDING_BODY
  {
    if s.bodySent == |s.body| then Outcome(s.(state := KEEP_ALIVE), READ)
    else
      match WriteResult(s.tls, io.body, |s.body| - s.bodySent)
      case Blocked(want) => Outcome(s, want)
      case Broken => Outcome(Close(s), NONE)
      case Moved(n) => BodyTaken(s, n)
  }

  /** `n` more bytes of the body were taken. */
  function BodyTaken(s: Sender, n: nat): Outcome
    requires s.state == SENDING_BODY && n <= |s.body| - s.bodySent
  {
    var t := s.(bodySent := s.bodySent + n, wire := s.wire + s.body[s.bodySent..s.bodySent + n]);
    if t.bodySent >= |t.body| then Outcome(t.(state := KEEP_ALIVE), READ) else Outcome(t, WRITE)
  }

  /** `n` bytes of the file from the current offset. */
  function FileBytes(s: Sender, n: nat): string
    requires s.state != CLOSED && n <= s.remaining
  {
    if s.file == None then "" else s.file.value[s.offset..s.offset + n]
  }

  function SendPlain(s: Sender, io: SendIo): Outcome
    requires s.state != CLOSED && !s.tls
  {
    if s.remaining <= 0 then Finish(s)
    else
      match io.sendfile
      case SentAll =>
        Outcome(s.(remaining := 0, wire := s.wire + FileBytes(s, s.remaining), state := KEEP_ALIVE, file := None), READ)
      case SentSome(n) =>
        var k := Min(n, s.remaining);
        Outcome(s.(offset := s.offset + k, remaining := s.remaining - k, wire := s.wire + FileBytes(s, k)), WRITE)
      case SendFailed(n) =>
        Outcome(Close(s.(wire := s.wire + FileBytes(s, Min(n, s.remaining)))), NONE)
  }

  /** `std::vector::resize`: cut, or padded with zero bytes. */
  function Resize(v: string, n: nat): (r: string)
    ensures |r| == n
  {
    if |v| >= n then v[..n] else v + seq(n - |v|, _ => '\0')
  }

  /** The next chunk read into the buffer; bytes beyond `n` are whatever the buffer held. */
  function LoadChunk(s: Sender, n: nat): Sender
    requires s.state == SENDING_BODY && s.tls && 0 < n <= Min(s.remaining, CHUNK_SIZE)
  {
    var buffer := Resize(s.chunk, Min(s.remaining, CHUNK_SIZE));
    var chunk := FileBytes(s, n) + buffer[n..];
    assert chunk[..n] == FileBytes(s, n);
    s.(chunk := chunk, chunkUsed := n, chunkSent := 0)
  }

  function SendTls(s: Sender, io: SendIo): Outcome
    requires s.state == SENDING_BODY && s.tls
  {
    if s.chunkSent < s.chunkUsed then SendChunk(s, io)
    else if s.remaining <= 0 then Finish(s)
    else
      var n := Min(io.pread, Min(s.remaining, CHUNK_SIZE));
      if n == 0 then Outcome(Close(s), NONE)
      else
        SendChunk(LoadChunk(s, n), io)
  }

  function SendChunk(s: Sender, io: SendIo): Outcome
    requires s.state == SENDING_BODY && s.chunkSent < s.chunkUsed
  {
    match WriteResult(true, io.body, s.chunkUsed - s.chunkSent)
    case Blocked(want) => Outcome(s, want)
    case Broken => Outcome(Close(s), NONE)
    case Moved(n) => Outcome(ChunkTaken(s, n), WRITE)
  }

  /** The chunk bytes a write takes; the file position moves on with the last of them. */
  function ChunkTaken(s: Sender, n: nat): Sender
    requires s.state == SENDING_BODY && s.chunkSent < s.chunkUsed && s.chunkSent + n <= s.chunkUsed
  {
    var t := s.(chunkSent := s.chunkSent + n, wire := s.wire + s.chunk[s.chunkSent..s.chunkSent + n]);
    if t.chunkSent < t.chunkUsed then t
    else t.(offset := t.offset + t.chunkUsed, remaining := t.remaining - t.chunkUsed)
  }

  function Step(s: Sender, io: SendIo): Outcome
    requires Sends(s)
  {
    if s.state == SENDING_BODY then SendBody(s, io) else SendHeaders(s, io)
  }

  // ---- What is still to be sent ----

  ghost function BodyRest(s: Sender): string
    requires s.state != CLOSED
  {
    if s.file == None then s.body[s.bodySent..]
    else if s.chunkSent < s.chunkUsed then
      s.chunk[s.chunkSent..s.chunkUsed] + s.file.value[s.offset + s.chunkUsed..s.offset + s.remaining]
    else s.file.value[s.offset..s.offset + s.remaining]
  }

  lemma LoadChunkOwesSame(s: Sender, n: nat)
    requires s.state == SENDING_BODY && s.tls && s.chunkSent == s.chunkUsed
    requires 0 < n <= Min(s.remaining, CHUNK_SIZE)
    ensures BodyRest(LoadChunk(s, n)) == BodyRest(s)
  {
    var chunk := LoadChunk(s, n).chunk;
    assert chunk[0..n] == FileBytes(s, n);
    SliceSplit(s.file.value, s.offset, s.offset + n, s.offset + s.remaining);
  }

  /** The bytes the connection still owes its peer. */
  ghost function Rest(s: Sender): string
    requires s.state != CLOSED
  {
    if s.state == SENDING_BODY then BodyRest(s)
    else if Sends(s) then s.header[s.headerSent..] + BodyOwed(s)
    else ""
  }

  ghost function BodyOwed(s: Sender): string
    requires s.state != CLOSED
  {
    if s.isHead then "" else BodyRest(s)
  }

  /** A step moves `sent` from what is owed to the wire: nothing is lost, repeated or
      reordered, and a connection that breaks has sent a prefix. */
  ghost predicate Moves(s: Sender, t: Sender, sent: string)
    requires s.state != CLOSED
  {
    && t.wire == s.wire + sent
    && (t.state == CLOSED ==> sent <= Rest(s))
    && (t.state != CLOSED ==> Rest(s) == sent + Rest(t))
  }

  lemma MovesNothing(s: Sender, t: Sender)
    requires s.state != CLOSED && t.wire == s.wire
    requires t.state != CLOSED ==> Rest(t) == Rest(s)
    ensures Moves(s, t, "")
  {
  }

  lemma MovesThenMoves(s: Sender, t: Sender, u: Sender, a: string, b: string)
    requires s.state != CLOSED && t.state != CLOSED && Moves(s, t, a) && Moves(t, u, b)
    ensures Moves(s, u, a + b)
  {
    Assoc(s.wire, a, b);
    if u.state == CLOSED {
      PrefixUnder(a, b, Rest(t));
    } else {
      Assoc(a, b, Rest(u));
    }
  }

  /** Some bytes, perhaps none, moved from what is owed to the wire. */
  ghost predicate MovesOn(s: Sender, t: Sender)
    requires s.state != CLOSED
  {
    exists sent :: Moves(s, t, sent)
  }

  lemma MovesOnTwice(s: Sender, t: Sender, u: Sender)
    requires s.state != CLOSED && t.state != CLOSED && MovesOn(s, t) && MovesOn(t, u)
    ensures MovesOn(s, u)
  {
    var a :| Moves(s, t, a);
    var b :| Moves(t, u, b);
    MovesThenMoves(s, t, u, a, b);
  }

  lemma PrefixUnder(a: string, b: string, c: string)
    requires b <= c
    ensures a + b <= a + c
  {
  }

  lemma SliceSplit(f: string, a: int, b: int, c: int)
    requires 0 <= a <= b <= c <= |f|
    ensures f[a..c] == f[a..b] + f[b..c]
  {
  }

  lemma DropSplit(f: string, a: int, b: int)
    requires 0 <= a <= b <= |f|
    ensures f[a..] == f[a..b] + f[b..]
  {
  }

  lemma EmptyLeft(a: string)
    ensures "" + a == a
  {
  }

  lemma MemoryMoves(s: Sender, io: SendIo)
    requires s.state == SENDING_BODY && s.file == None && s.body != ""
    ensures MovesOn(s, SendMemory(s, io).next)
  {
    hide Min, MovesOn, BodyTaken;
    var t := SendMemory(s, io).next;
    var w := WriteResult(s.tls, io.body, |s.body| - s.bodySent);
    if s.bodySent < |s.body| && w.Moved? {
      BodyTakenMoves(s, w.n);
    } else {
      MovesNothing(s, t);
      MovesSome(s, t, "");
    }
  }

  lemma MovesSome(s: Sender, t: Sender, sent: string)
    requires s.state != CLOSED && Moves(s, t, sent)
    ensures MovesOn(s, t)
  {
  }

  lemma BodyTakenMoves(s: Sender, n: nat)
    requires s.state == SENDING_BODY && s.file == None && n <= |s.body| - s.bodySent
    ensures MovesOn(s, BodyTaken(s, n).next)
  {
    hide MovesOn;
    DropSplit(s.body, s.bodySent, s.bodySent + n);
    MovesSome(s, BodyTaken(s, n).next, s.body[s.bodySent..s.bodySent + n]);
  }

  /** `n` bytes of the file went out, and the connection broke, finished or goes on. */
  lemma FilePartMoves(s: Sender, t: Sender, n: nat)
    requires s.state == SENDING_BODY && !s.tls && s.file.Some? && n <= s.remaining && t.wire == s.wire + FileBytes(s, n)
    requires match t.state
             case CLOSED => true
             case KEEP_ALIVE => n == s.remaining
             case _ => t == s.(offset := s.offset + n, remaining := s.remaining - n, wire := t.wire)
    ensures Moves(s, t, FileBytes(s, n))
  {
    SliceSplit(s.file.value, s.offset, s.offset + n, s.offset + s.remaining);
  }

  lemma PlainMoves(s: Sender, io: SendIo)
    requires s.state == SENDING_BODY && (s.file == None ==> s.body == "")
    requires !s.tls
    ensures MovesOn(s, SendPlain(s, io).next)
  {
    hide FileBytes, Rest;
    var t := SendPlain(s, io).next;
    if s.remaining > 0 {
      var n := if io.sendfile.SentAll? then s.remaining else Min(io.sendfile.n, s.remaining);
      FilePartMoves(s, t, n);
    } else {
      NothingLeft(s, t);
    }
  }

  lemma NothingLeft(s: Sender, t: Sender)
    requires s.state == SENDING_BODY && !s.tls && s.remaining == 0 && (s.file == None ==> s.body == "")
    requires t.state == KEEP_ALIVE && t.wire == s.wire
    ensures Moves(s, t, "")
  {
    MovesNothing(s, t);
  }

  lemma CutChunk(chunk: string, sent: nat, cut: nat, used: nat, after: string)
    requires sent <= cut <= used <= |chunk|
    ensures chunk[sent..used] + after
            == chunk[sent..cut] + if cut < used then chunk[cut..used] + after else after
  {
    if cut < used {
      SliceSplit(chunk, sent, cut, used);
      Assoc(chunk[sent..cut], chunk[cut..used], after);
    }
  }

  lemma ChunkOwes(s: Sender, n: nat)
    requires s.state == SENDING_BODY && s.chunkSent < s.chunkUsed && s.chunkSent + n <= s.chunkUsed
    ensures BodyRest(s) == s.chunk[s.chunkSent..s.chunkSent + n] + BodyRest(ChunkTaken(s, n))
  {
    hide BodyRest, ChunkTaken;
    var after := s.file.value[s.offset + s.chunkUsed..s.offset + s.remaining];
    ChunkInFlight(s);
    CutChunk(s.chunk, s.chunkSent, s.chunkSent + n, s.chunkUsed, after);
    ChunkLeaves(s, n);
  }

  lemma ChunkInFlight(s: Sender)
    requires s.state != CLOSED && s.chunkSent < s.chunkUsed
    ensures BodyRest(s) == s.chunk[s.chunkSent..s.chunkUsed]
                           + s.file.value[s.offset + s.chunkUsed..s.offset + s.remaining]
  {
  }

  lemma ChunkLeaves(s: Sender, n: nat)
    requires s.state == SENDING_BODY && s.chunkSent < s.chunkUsed && s.chunkSent + n <= s.chunkUsed
    ensures var after := s.file.value[s.offset + s.chunkUsed..s.offset + s.remaining];
            BodyRest(ChunkTaken(s, n))
            == if s.chunkSent + n < s.chunkUsed then s.chunk[s.chunkSent + n..s.chunkUsed] + after else after
  {
    var sent := s.(wire := s.wire + s.chunk[s.chunkSent..s.chunkSent + n], chunkSent := s.chunkSent + n);
    if s.chunkSent + n < s.chunkUsed {
      assert ChunkTaken(s, n) == sent;
    } else {
      assert ChunkTaken(s, n) == sent.(offset := s.offset + s.chunkUsed, remaining := s.remaining - s.chunkUsed);
    }
  }

  lemma ChunkTakenMoves(s: Sender, n: nat)
    requires s.state == SENDING_BODY && s.chunkSent < s.chunkUsed && s.chunkSent + n <= s.chunkUsed
    ensures MovesOn(s, ChunkTaken(s, n))
  {
    ChunkOwes(s, n);
    assert Moves(s, ChunkTaken(s, n), s.chunk[s.chunkSent..s.chunkSent + n]);
  }

  lemma ChunkMoves(s: Sender, io: SendIo)
    requires s.state == SENDING_BODY && s.chunkSent < s.chunkUsed
    ensures MovesOn(s, SendChunk(s, io).next)
  {
    var w := WriteResult(true, io.body, s.chunkUsed - s.chunkSent);
    if w.Moved? {
      ChunkTakenMoves(s, w.n);
    } else {
      MovesNothing(s, SendChunk(s, io).next);
    }
  }

  lemma TlsMoves(s: Sender, io: SendIo)
    requires s.tls && s.state == SENDING_BODY && (s.file == None ==> s.body == "")
    ensures MovesOn(s, SendTls(s, io).next)
  {
    var n := Min(io.pread, Min(s.remaining, CHUNK_SIZE));
    if s.chunkSent < s.chunkUsed {
      ChunkMoves(s, io);
    } else if s.remaining == 0 || n == 0 {
      MovesNothing(s, SendTls(s, io).next);
    } else {
      var t := LoadChunk(s, n);
      LoadChunkOwesSame(s, n);
      MovesNothing(s, t);
      ChunkMoves(t, io);
      MovesOnTwice(s, t, SendChunk(t, io).next);
    }
  }

  lemma BodyMoves(s: Sender, io: SendIo)
    requires s.state == SENDING_BODY
    ensures MovesOn(s, SendBody(s, io).next)
  {
    if s.file == None && s.body != "" {
      MemoryMoves(s, io);
    } else if s.tls {
      TlsMoves(s, io);
    } else {
      PlainMoves(s, io);
    }
  }

  lemma CutHeader(header: string, sent: nat, cut: nat, after: string)
    requires sent <= cut <= |header|
    ensures header[sent..] + after == header[sent..cut] + (header[cut..] + after)
  {
    DropSplit(header, sent, cut);
    Assoc(header[sent..cut], header[cut..], after);
  }

  lemma BodyOwedAfter(s: Sender, n: nat)
    requires InHeaders(s) && n <= |s.header| - s.headerSent
    ensures BodyOwed(HeaderTaken(s, n)) == BodyOwed(s)
  {
  }

  lemma HeaderOwes(s: Sender, n: nat)
    requires InHeaders(s) && n <= |s.header| - s.headerSent
    ensures Rest(s) == s.header[s.headerSent..s.headerSent + n] + Rest(HeaderTaken(s, n))
  {
    var cut := s.headerSent + n;
    var t := HeaderTaken(s, n);
    BodyOwedAfter(s, n);
    CutHeader(s.header, s.headerSent, cut, BodyOwed(s));
    assert Rest(t) == s.header[cut..] + BodyOwed(s);
  }

  lemma HeaderMoves(s: Sender, n: nat)
    requires InHeaders(s) && n <= |s.header| - s.headerSent
    ensures MovesOn(s, HeaderTaken(s, n))
  {
    HeaderOwes(s, n);
    assert Moves(s, HeaderTaken(s, n), s.header[s.headerSent..s.headerSent + n]);
  }

  lemma HeadersDone(t: Sender)
    requires InHeaders(t) && t.headerSent == |t.header|
    ensures MovesOn(t, t.(state := if NoBody(t) then KEEP_ALIVE else SENDING_BODY))
  {
    EmptyLeft(BodyOwed(t));
    assert Rest(t) == BodyOwed(t);
    if NoBody(t) {
      assert BodyOwed(t) == "";
      MovesNothing(t, t.(state := KEEP_ALIVE));
    } else {
      assert BodyRest(t.(state := SENDING_BODY)) == BodyOwed(t);
      MovesNothing(t, t.(state := SENDING_BODY));
    }
  }

  lemma HeadersPartMoves(s: Sender, w: WriteOutcome)
    requires InHeaders(s)
    ensures MovesOn(s, HeadersPart(s, w).next)
  {
    var r := WriteResult(s.tls, w, |s.header| - s.headerSent);
    if r.Moved? {
      var t := HeaderTaken(s, r.n);
      HeaderMoves(s, r.n);
      if t.headerSent == |t.header| {
        HeadersDone(t);
        MovesOnTwice(s, t, HeadersPart(s, w).next);
      }
    } else {
      MovesNothing(s, HeadersPart(s, w).next);
    }
  }

  lemma HeadersMoveOn(s: Sender, io: SendIo)
    requires InHeaders(s)
    ensures MovesOn(s, SendHeaders(s, io).next)
  {
    var t := HeadersPart(s, io.header).next;
    HeadersPartMoves(s, io.header);
    if t.state == SENDING_BODY {
      BodyMoves(t, io);
      MovesOnTwice(s, t, SendBody(t, io).next);
    }
  }

  /** Every call of the sending half, whatever the outcomes it meets, moves bytes from
      what is owed to the wire in order and loses, repeats or invents none. */
  lemma StepMovesOn(s: Sender, io: SendIo)
    requires Sends(s)
    ensures MovesOn(s, Step(s, io).next)
  {
    if s.state == SENDING_BODY {
      BodyMoves(s, io);
    } else {
      HeadersMoveOn(s, io);
    }
  }
}
