/** Reading a request in arbitrary pieces: the header terminator, the size bound, and that
    the request parsed does not depend on how the input was cut. */
module Reading {
  import opened Text
  import opened States
  import HttpRequest

  const READ_SIZE := 4096
  const MAX_HEADER := 65536

  datatype Received = Taken(data: string) | Wait(want: Want) | End

  /** How one `read` or `SSL_read` of up to READ_SIZE bytes ends. */
  function ReadResult(tls: bool, o: ReadOutcome): (r: Received)
    ensures r.Taken? ==> 0 < |r.data| <= READ_SIZE
  {
    match o
    case Got(data) => if data == "" then End else Taken(data[..Min(|data|, READ_SIZE)])
    case ReadAgain => Wait(READ)
    case ReadWantWrite => if tls then Wait(WRITE) else End
    case ReadFailed => End
  }

  predicate Terminated(buf: string) {
    Find(buf, CRLFCRLF, 0) != NPOS
  }

  datatype Reader = Reader(state: State, buf: string)
  datatype ReadStepResult = ReadStepResult(next: Reader, want: Want)

  /** `do_read` on the buffer and the state. */
  function ReadStep(r: Reader, tls: bool, o: ReadOutcome): ReadStepResult {
    match ReadResult(tls, o)
    case Wait(want) => ReadStepResult(r, want)
    case End => ReadStepResult(r.(state := CLOSED), NONE)
    case Taken(data) => AfterTaking(r, data)
  }

  function AfterTaking(r: Reader, data: string): ReadStepResult {
    var buf := r.buf + data;
    if Terminated(buf) then ReadStepResult(Reader(PARSING, buf), NONE)
    else if |buf| > MAX_HEADER then ReadStepResult(Reader(CLOSED, buf), NONE)
    else ReadStepResult(Reader(r.state, buf), READ)
  }

  /** What holds of a buffer between two calls: a connection still reading has at most
      MAX_HEADER bytes and no terminator, and no buffer is more than one read longer. */
  ghost predicate Bounded(r: Reader) {
    && |r.buf| <= MAX_HEADER + READ_SIZE
    && (r.state == READING ==> |r.buf| <= MAX_HEADER && !Terminated(r.buf))
  }

  lemma ReadKeepsBounded(r: Reader, tls: bool, o: ReadOutcome)
    requires r.state == READING || (r.state == KEEP_ALIVE && r.buf == "")
    requires Bounded(r)
    ensures Bounded(ReadStep(r, tls, o).next)
    ensures ReadStep(r, tls, o).next.state in {r.state, PARSING, CLOSED}
    ensures ReadStep(r, tls, o).next.state == PARSING ==> Terminated(ReadStep(r, tls, o).next.buf)
  {
  }

  /** What one read does, by its outcome: at most 4096 bytes join the buffer, which is complete
      once it holds an empty line and too long beyond 65536 bytes without one. */
  lemma ReadMeans(r: Reader, tls: bool, o: ReadOutcome)
    ensures var t := ReadStep(r, tls, o);
            match o
            case Got(data) =>
              if data == "" then t.next.state == CLOSED
              else
                var buf := r.buf + data[..if |data| < 4096 then |data| else 4096];
                && t.next.buf == buf
                && (t.next.state == if exists i :: MatchesAt(buf, "\r\n\r\n", i) then PARSING
                                    else if |buf| > 65536 then CLOSED else r.state)
                && (t.next.state == r.state && r.state != CLOSED && r.state != PARSING ==> t.want == READ)
            case ReadAgain => t.next == r && t.want == READ
            case ReadWantWrite => if tls then t.next == r && t.want == WRITE else t.next.state == CLOSED
            case ReadFailed => t.next.state == CLOSED
  {
    if o.Got? && o.data != "" {
      TerminatedIff(r.buf + o.data[..if |o.data| < 4096 then |o.data| else 4096]);
    }
  }

  lemma TerminatedIff(buf: string)
    ensures Terminated(buf) <==> exists i :: MatchesAt(buf, CRLFCRLF, i)
  {
    if i :| MatchesAt(buf, CRLFCRLF, i) {
      assert 0 <= i;
    }
  }

  lemma ReadStates(r: Reader, tls: bool, o: ReadOutcome)
    ensures ReadStep(r, tls, o).next.state in {r.state, PARSING, CLOSED}
  {
  }

  // ---- Any cutting of the input ----

  function ReadRun(r: Reader, tls: bool, os: seq<ReadOutcome>): Reader
    decreases |os|
  {
    if os == [] || r.state != READING then r else ReadRun(ReadStep(r, tls, os[0]).next, tls, os[1..])
  }

  /** A read that brings between one byte and READ_SIZE, or a refusal to retry. */
  predicate Piece(tls: bool, o: ReadOutcome) {
    match o
    case Got(data) => 0 < |data| <= READ_SIZE
    case ReadAgain => true
    case ReadWantWrite => tls
    case ReadFailed => false
  }

  predicate Pieces(tls: bool, os: seq<ReadOutcome>) {
    forall i :: 0 <= i < |os| ==> Piece(tls, os[i])
  }

  function Data(o: ReadOutcome): string {
    if o.Got? then o.data else ""
  }

  /** The input that a sequence of pieces delivers. */
  function Delivered(os: seq<ReadOutcome>): string {
    if os == [] then "" else Data(os[0]) + Delivered(os[1..])
  }

  lemma PieceResult(r: Reader, tls: bool, o: ReadOutcome)
    requires Piece(tls, o)
    ensures var next := ReadStep(r, tls, o).next;
            && next.buf == r.buf + Data(o)
            && (!o.Got? ==> next == r)
            && (o.Got? ==> next.state == if Terminated(next.buf) then PARSING
                                         else if |next.buf| > MAX_HEADER then CLOSED else r.state)
  {
    if o.Got? {
      assert o.data[..|o.data|] == o.data;
    } else {
      assert r.buf + "" == r.buf;
    }
  }

  /** A terminator in a longer text that starts with `buf` lies in `buf` or ends after it. */
  lemma TerminatorInPrefix(buf: string, more: string, end: nat)
    requires Find(buf + more, CRLFCRLF, 0) == end
    ensures Terminated(buf) <==> end + 4 <= |buf|
    ensures Terminated(buf) ==> Find(buf, CRLFCRLF, 0) == end
  {
    if Terminated(buf) {
      FindIgnoresTail(buf, more, CRLFCRLF, 0);
    } else if end + 4 <= |buf| {
      MatchInPrefix(buf, more, CRLFCRLF, end);
    }
  }

  /** While the terminator ends by byte MAX_HEADER + 1, no cutting closes the connection:
      every one of them ends in PARSING with a prefix that holds the terminator. */
  lemma {:induction false} CuttingReachesParsing(r: Reader, tls: bool, os: seq<ReadOutcome>, end: nat)
    requires r.state == READING && !Terminated(r.buf) && Pieces(tls, os)
    requires Find(r.buf + Delivered(os), CRLFCRLF, 0) == end && end + 4 <= MAX_HEADER + 1
    ensures var last := ReadRun(r, tls, os);
            && last.state == PARSING
            && last.buf <= r.buf + Delivered(os)
            && Terminated(last.buf)
    decreases |os|
  {
    var input := r.buf + Delivered(os);
    RightUnit(r.buf);
    assert os != [];
    var o, rest := os[0], Delivered(os[1..]);
    var next := ReadStep(r, tls, o).next;
    PieceResult(r, tls, o);
    Assoc(r.buf, Data(o), rest);
    assert next.buf + rest == input;
    TerminatorInPrefix(next.buf, rest, end);
    if next.state == READING {
      CuttingReachesParsing(next, tls, os[1..], end);
    } else {
      ParsingStays(next, tls, os[1..]);
    }
  }

  lemma ParsingStays(r: Reader, tls: bool, os: seq<ReadOutcome>)
    requires r.state != READING
    ensures ReadRun(r, tls, os) == r
  {
  }

  /** Two cuttings of the same input parse to the same request. */
  lemma CuttingIndependence(tls: bool, os: seq<ReadOutcome>, tls': bool, os': seq<ReadOutcome>, input: string)
    requires Pieces(tls, os) && Delivered(os) == input
    requires Pieces(tls', os') && Delivered(os') == input
    requires Terminated(input) && Find(input, CRLFCRLF, 0) + 4 <= MAX_HEADER + 1
    ensures var a, b := ReadRun(Reader(READING, ""), tls, os), ReadRun(Reader(READING, ""), tls', os');
            && a.state == b.state == PARSING
            && HttpRequest.ParseText(a.buf) == HttpRequest.ParseText(b.buf) == HttpRequest.ParseText(input)
  {
    CuttingParses(tls, os, input);
    CuttingParses(tls', os', input);
  }

  lemma CuttingParses(tls: bool, os: seq<ReadOutcome>, input: string)
    requires Pieces(tls, os) && Delivered(os) == input
    requires Terminated(input) && Find(input, CRLFCRLF, 0) + 4 <= MAX_HEADER + 1
    ensures var a := ReadRun(Reader(READING, ""), tls, os);
            a.state == PARSING && HttpRequest.ParseText(a.buf) == HttpRequest.ParseText(input)
  {
    hide HttpRequest.ParseText, ReadRun, Pieces, Find;
    assert "" + Delivered(os) == input;
    CuttingReachesParsing(Reader(READING, ""), tls, os, Find(input, CRLFCRLF, 0));
    var a := ReadRun(Reader(READING, ""), tls, os);
    assert input == a.buf + input[|a.buf|..];
    HttpRequest.ParseIgnoresTail(a.buf, input[|a.buf|..]);
  }

  // ---- Between responses ----

  /** In KEEP_ALIVE each wakeup clears the buffer before it reads. */
  function IdleRun(tls: bool, os: seq<ReadOutcome>): Reader
    decreases |os|
  {
    if os == [] then Reader(KEEP_ALIVE, "")
    else
      var r := IdleRun(tls, os[..|os| - 1]);
      if r.state != KEEP_ALIVE then r else ReadStep(Reader(KEEP_ALIVE, ""), tls, os[|os| - 1]).next
  }

  /** What one read between responses leaves: PARSING exactly when it holds a terminator. */
  lemma IdleRead(tls: bool, o: ReadOutcome)
    requires Piece(tls, o)
    ensures ReadStep(Reader(KEEP_ALIVE, ""), tls, o).next
            == Reader(if Terminated(Data(o)) then PARSING else KEEP_ALIVE, Data(o))
  {
    PieceResult(Reader(KEEP_ALIVE, ""), tls, o);
    assert "" + Data(o) == Data(o);
  }

  /** The first read with a terminator in it. */
  predicate FirstTerminator(os: seq<ReadOutcome>, i: nat)
    requires i < |os|
  {
    Terminated(Data(os[i])) && forall j :: 0 <= j < i ==> !Terminated(Data(os[j]))
  }

  /** The text that is parsed between responses is that of one read alone, the first to hold
      a terminator; the pieces before it are gone. */
  lemma {:induction false} IdleParsesOneRead(tls: bool, os: seq<ReadOutcome>)
    requires Pieces(tls, os)
    ensures IdleRun(tls, os).state in {KEEP_ALIVE, PARSING}
    ensures forall i :: 0 <= i < |os| && FirstTerminator(os, i) ==> IdleRun(tls, os) == Reader(PARSING, Data(os[i]))
    ensures IdleRun(tls, os).state == KEEP_ALIVE <==> forall i :: 0 <= i < |os| ==> !Terminated(Data(os[i]))
    decreases |os|
  {
    hide Terminated, ReadStep, Piece, Data;
    if os != [] {
      var n := |os| - 1;
      IdleParsesOneRead(tls, os[..n]);
      assert forall i :: 0 <= i < n ==> os[..n][i] == os[i];
      IdleRead(tls, os[n]);
    }
  }

  /** A request whose bytes are all in one read leaves no bytes for the others. */
  lemma {:induction false} OneReadHoldsAll(os: seq<ReadOutcome>, i: nat)
    requires i < |os|
    ensures |Data(os[i])| <= |Delivered(os)|
    ensures |Data(os[i])| == |Delivered(os)| ==> forall j :: 0 <= j < |os| && j != i ==> Data(os[j]) == ""
  {
    hide Data;
    var rest := os[1..];
    assert |Delivered(os)| == |Data(os[0])| + |Delivered(rest)|;
    assert forall j :: 0 < j < |os| ==> os[j] == rest[j - 1];
    if i == 0 {
      EmptyTail(rest);
    } else {
      OneReadHoldsAll(rest, i - 1);
    }
  }

  lemma {:induction false} EmptyTail(os: seq<ReadOutcome>)
    ensures |Delivered(os)| == 0 ==> forall j :: 0 <= j < |os| ==> Data(os[j]) == ""
  {
    hide Data;
    if os != [] {
      var rest := os[1..];
      assert |Delivered(os)| == |Data(os[0])| + |Delivered(rest)|;
      EmptyTail(rest);
      assert forall j :: 0 < j < |os| ==> os[j] == rest[j - 1];
    }
  }

  /** Between responses, unlike on a new connection, a complete request is parsed whole
      exactly when one read holds all of it. */
  lemma WholeIffOneRead(tls: bool, os: seq<ReadOutcome>)
    requires Pieces(tls, os) && Terminated(Delivered(os))
    ensures IdleRun(tls, os) == Reader(PARSING, Delivered(os))
            <==> exists i :: 0 <= i < |os| && Data(os[i]) == Delivered(os)
  {
    hide Terminated;
    IdleParsesOneRead(tls, os);
    if i :| 0 <= i < |os| && Data(os[i]) == Delivered(os) {
      OneReadHoldsAll(os, i);
      NotTerminated("");
    }
    if IdleRun(tls, os).state == PARSING {
      var i := FirstTerminated(os);
      assert IdleRun(tls, os) == Reader(PARSING, Data(os[i]));
    }
  }

  lemma NotTerminated(s: string)
    requires |s| < 4
    ensures !Terminated(s)
  {
  }

  lemma FirstTerminated(os: seq<ReadOutcome>) returns (i: nat)
    requires exists k :: 0 <= k < |os| && Terminated(Data(os[k]))
    ensures i < |os| && FirstTerminator(os, i)
  {
    hide Terminated;
    i := 0;
    while !Terminated(Data(os[i]))
      invariant i < |os| && forall j :: 0 <= j < i ==> !Terminated(Data(os[j]))
      decreases |os| - i
    {
      i := i + 1;
    }
  }

  // ---- The bound is exact ----

  /** The input delivered one byte per read. */
  function ByteReads(input: string): seq<ReadOutcome> {
    if input == "" then [] else [Got([input[0]])] + ByteReads(input[1..])
  }

  lemma {:induction false} ByteReadsDeliver(tls: bool, input: string)
    ensures Pieces(tls, ByteReads(input)) && Delivered(ByteReads(input)) == input
  {
    if input != "" {
      ByteReadsDeliver(tls, input[1..]);
      assert ByteReads(input)[1..] == ByteReads(input[1..]);
    }
  }

  /** A late terminator, delivered byte by byte, comes after the size bound has closed the
      connection. */
  lemma {:induction false} LateTerminatorCloses(buf: string, tls: bool, input: string, end: nat)
    requires |buf| <= MAX_HEADER && !Terminated(buf)
    requires Find(buf + input, CRLFCRLF, 0) == end && end + 4 > MAX_HEADER + 1
    ensures ReadRun(Reader(READING, buf), tls, ByteReads(input)).state == CLOSED
    decreases |input|
  {
    RightUnit(buf);
    assert input != "";
    var os := ByteReads(input);
    var r := Reader(READING, buf);
    assert os[1..] == ByteReads(input[1..]);
    PieceResult(r, tls, os[0]);
    var next := ReadStep(r, tls, os[0]).next;
    assert next.buf + input[1..] == buf + input;
    TerminatorInPrefix(next.buf, input[1..], end);
    if next.state == READING {
      LateTerminatorCloses(next.buf, tls, input[1..], end);
    } else {
      ParsingStays(next, tls, os[1..]);
    }
  }

  /** Every cutting of an input reaches PARSING exactly when its terminator ends by byte
      65537, one past the bound on a request without one. */
  lemma EveryCuttingParsesIff(tls: bool, input: string)
    requires Terminated(input)
    ensures (forall os :: Pieces(tls, os) && Delivered(os) == input ==>
                            ReadRun(Reader(READING, ""), tls, os).state == PARSING)
            <==> Find(input, CRLFCRLF, 0) + 4 <= 65537
  {
    var end := Find(input, CRLFCRLF, 0);
    if end + 4 <= MAX_HEADER + 1 {
      forall os | Pieces(tls, os) && Delivered(os) == input
        ensures ReadRun(Reader(READING, ""), tls, os).state == PARSING
      {
        CuttingParses(tls, os, input);
      }
    } else {
      ByteReadsDeliver(tls, input);
      assert "" + input == input;
      LateTerminatorCloses("", tls, input, end);
      assert ReadRun(Reader(READING, ""), tls, ByteReads(input)).state != PARSING;
    }
  }
}
