/** The Range header: its syntax, the interval it selects, and the text that asks for an
    interval again. */
module ByteRange {
  import opened Text

  datatype RangeSpec =
    | Span(first: nat, last: nat)
    | From(first: nat)
    | Suffix(length: nat)

  /** The header value read as a single byte range; a value of digits only on either side
      of the first '-'. */
  function Syntax(hdr: string): Option<RangeSpec> {
    if |hdr| < 7 || hdr[..6] != "bytes=" then None
    else
      var val := hdr[6..];
      var dash := Find(val, "-", 0);
      if dash == NPOS then None
      else
        SpecOf(val[..dash], val[dash + 1..])
  }

  /** The range given by the texts on either side of the dash. */
  function SpecOf(first: string, last: string): Option<RangeSpec> {
    if !AllDigits(first) || !AllDigits(last) then None
    else if first == "" then Some(Suffix(Value(last)))
    else if last == "" then Some(From(Value(first)))
    else Some(Span(Value(first), Value(last)))
  }

  /** The inclusive interval served for a file of `size` bytes. */
  function Resolve(spec: RangeSpec, size: nat): Option<(int, int)> {
    var start := match spec
                 case Span(first, _) => first
                 case From(first) => first
                 case Suffix(length) => if size < length then 0 else size - length;
    var end := if spec.Span? then spec.last else size - 1;
    if (spec.Suffix? && spec.length == 0) || start >= size || start > end then None
    else Some((start, if end >= size then size - 1 else end))
  }

  function ParseRange(hdr: string, size: nat): Option<(int, int)> {
    match Syntax(hdr)
    case None => None
    case Some(spec) => Resolve(spec, size)
  }

  // ---- The meaning given by section 14.1.2 of RFC 9110 ----

  ghost predicate Selects(spec: RangeSpec, size: nat, p: int) {
    0 <= p < size
    && match spec
       case Span(first, last) => first <= p <= last
       case From(first) => first <= p
       case Suffix(length) => size - length <= p
  }

  /** The interval is the set of selected byte positions; there is none exactly when no
      position is selected. */
  lemma ResolveIsSelection(spec: RangeSpec, size: nat)
    ensures match Resolve(spec, size)
            case None => forall p :: !Selects(spec, size, p)
            case Some((a, b)) => 0 <= a <= b < size && forall p :: Selects(spec, size, p) <==> a <= p <= b
  {
  }

  function SpecText(spec: RangeSpec): string {
    "bytes=" + match spec
               case Span(first, last) => Decimal(first) + "-" + Decimal(last)
               case From(first) => Decimal(first) + "-" + ""
               case Suffix(length) => "" + "-" + Decimal(length)
  }

  lemma SyntaxOf(first: string, last: string)
    requires AllDigits(first) && AllDigits(last)
    ensures var hdr := "bytes=" + (first + "-" + last);
            Syntax(hdr) == SpecOf(first, last)
  {
    var val := first + "-" + last;
    var hdr := "bytes=" + val;
    assert hdr[..6] == "bytes=" && hdr[6..] == val;
    DigitsAreOneLine(first);
    FindChar(first, '-', last);
    assert val[..|first|] == first && val[|first| + 1..] == last;
  }

  /** What a header value spells: "bytes=", a first and a last position in digits, either of
      them left out, around the first '-'; nothing else. */
  ghost predicate Spells(hdr: string, spec: RangeSpec) {
    exists first, last :: SpelledAs(hdr, spec, first, last)
  }

  ghost predicate SpelledAs(hdr: string, spec: RangeSpec, first: string, last: string) {
    && AllDigits(first) && AllDigits(last) && hdr == "bytes=" + (first + "-" + last)
    && match spec
       case Span(a, b) => first != "" && last != "" && Value(first) == a && Value(last) == b
       case From(a) => first != "" && last == "" && Value(first) == a
       case Suffix(n) => first == "" && Value(last) == n
  }

  /** A header value is read as a range if and only if it spells that range. */
  lemma SyntaxIffSpelled(hdr: string, spec: RangeSpec)
    ensures Syntax(hdr) == Some(spec) <==> Spells(hdr, spec)
  {
    if Syntax(hdr) == Some(spec) {
      var val := hdr[6..];
      var dash := Find(val, "-", 0);
      MatchesChar(val, '-', dash);
      CutAround(val, dash);
      assert hdr == "bytes=" + (val[..dash] + "-" + val[dash + 1..]);
      assert SpelledAs(hdr, spec, val[..dash], val[dash + 1..]);
    }
    if Spells(hdr, spec) {
      var first, last :| SpelledAs(hdr, spec, first, last);
      SyntaxOf(first, last);
    }
  }

  /** Every range printed in decimal is read back as itself. */
  lemma SyntaxOfPrinted(spec: RangeSpec)
    ensures Syntax(SpecText(spec)) == Some(spec)
  {
    match spec
    case Span(first, last) => SyntaxOf(Decimal(first), Decimal(last));
    case From(first) => SyntaxOf(Decimal(first), "");
    case Suffix(length) => SyntaxOf("", Decimal(length));
  }

  /** A printed range selects what section 14.1.2 of RFC 9110 says, and is ignored
      exactly when that is nothing. */
  lemma ParsePrintedRange(spec: RangeSpec, size: nat)
    ensures match ParseRange(SpecText(spec), size)
            case None => forall p :: !Selects(spec, size, p)
            case Some((a, b)) => 0 <= a <= b < size && forall p :: Selects(spec, size, p) <==> a <= p <= b
  {
    SyntaxOfPrinted(spec);
    ResolveIsSelection(spec, size);
  }

  /** Whatever the header, an interval that is returned lies inside the file and is the
      selection of the range that was read. */
  lemma ParsedIntervalInFile(hdr: string, size: nat)
    requires ParseRange(hdr, size) != None
    ensures var (a, b) := ParseRange(hdr, size).value;
            && 0 <= a <= b < size
            && Syntax(hdr) != None
            && forall p :: Selects(Syntax(hdr).value, size, p) <==> a <= p <= b
  {
    ResolveIsSelection(Syntax(hdr).value, size);
  }

  // ---- Asking for a reported interval again ----

  function IntervalText(a: nat, b: nat): string {
    Decimal(a) + "-" + Decimal(b)
  }

  /** The Content-Range value of a partial response. */
  function ContentRange(a: nat, b: nat, size: nat): string {
    "bytes " + IntervalText(a, b) + "/" + Decimal(size)
  }

  function NumberIn(digits: string): Option<nat> {
    if digits != "" && AllDigits(digits) then Some(Value(digits)) else None
  }

  /** How a client reads a Content-Range value, section 14.4 of RFC 9110: "bytes ", the first
      and the last position sent with '-' between them, '/', the size of the file. */
  function ReadContentRange(value: string): Option<(nat, nat, nat)> {
    if !("bytes " <= value) then None
    else
      var rest := value[6..];
      var dash, slash := Find(rest, "-", 0), Find(rest, "/", 0);
      if dash == NPOS || slash == NPOS || slash < dash then None
      else
        match (NumberIn(rest[..dash]), NumberIn(rest[dash + 1..slash]), NumberIn(rest[slash + 1..]))
        case (Some(first), Some(last), Some(size)) => Some((first, last, size))
        case _ => None
  }

  lemma CutsOfRest(first: string, last: string, total: string)
    requires AllDigits(first) && AllDigits(last)
    ensures var rest := first + "-" + last + "/" + total;
            && Find(rest, "-", 0) == |first| && Find(rest, "/", 0) == |first| + 1 + |last|
            && rest[..|first|] == first && rest[|first| + 1..|first| + 1 + |last|] == last
            && rest[|first| + 1 + |last| + 1..] == total
  {
    var rest := first + "-" + last + "/" + total;
    DigitsAreOneLine(first);
    DigitsAreOneLine(last);
    FindChar(first, '-', last + "/" + total);
    assert rest == first + ['-'] + (last + "/" + total);
    FindChar(first + "-" + last, '/', total);
  }

  lemma ReadParts(rest: string, dash: nat, slash: nat)
    requires Find(rest, "-", 0) == dash < slash == Find(rest, "/", 0) < |rest|
    requires NumberIn(rest[..dash]) != None && NumberIn(rest[dash + 1..slash]) != None
             && NumberIn(rest[slash + 1..]) != None
    ensures ReadContentRange("bytes " + rest)
            == Some((NumberIn(rest[..dash]).value, NumberIn(rest[dash + 1..slash]).value,
                     NumberIn(rest[slash + 1..]).value))
  {
    hide Find, NumberIn;
    assert ("bytes " + rest)[6..] == rest;
  }

  lemma ReadBack(first: string, last: string, total: string)
    requires AllDigits(first) && AllDigits(last) && AllDigits(total) && first != "" && last != "" && total != ""
    ensures ReadContentRange("bytes " + (first + "-" + last + "/" + total))
            == Some((Value(first), Value(last), Value(total)))
  {
    hide Value, Find, ReadContentRange, AllDigits;
    CutsOfRest(first, last, total);
    ReadParts(first + "-" + last + "/" + total, |first|, |first| + 1 + |last|);
  }

  /** The interval and the size are read from the header as they are. */
  lemma ContentRangeReadBack(a: nat, b: nat, size: nat)
    ensures ReadContentRange(ContentRange(a, b, size)) == Some((a, b, size))
  {
    hide ReadContentRange, Value;
    var first, last, total := Decimal(a), Decimal(b), Decimal(size);
    ReadBack(first, last, total);
    assert ContentRange(a, b, size) == "bytes " + (first + "-" + last + "/" + total);
  }

  /** The interval that a client reads in Content-Range, asked for in a Range header, is
      served again. */
  lemma ReportedIntervalIsStable(hdr: string, size: nat)
    requires ParseRange(hdr, size) != None
    ensures var (a, b) := ParseRange(hdr, size).value;
            && 0 <= a <= b < size
            && ReadContentRange(ContentRange(a, b, size)) == Some((a, b, size))
            && ParseRange("bytes=" + (Decimal(a) + "-" + Decimal(b)), size) == Some((a, b))
  {
    hide ReadContentRange, ContentRange, Value, Find;
    ParsedIntervalInFile(hdr, size);
    var (a, b) := ParseRange(hdr, size).value;
    ContentRangeReadBack(a, b, size);
    SyntaxOf(Decimal(a), Decimal(b));
    SpecOfPrinted(a, b);
  }

  lemma SpecOfPrinted(a: nat, b: nat)
    ensures SpecOf(Decimal(a), Decimal(b)) == Some(Span(a, b))
  {
  }

  // ---- Fetching a file piece by piece ----

  /** The slice that is sent for an interval. */
  function Slice(file: string, interval: Option<(int, int)>): string
    requires interval.Some? ==> 0 <= interval.value.0 <= interval.value.1 < |file|
  {
    match interval
    case None => file
    case Some((a, b)) => file[a..b + 1]
  }

  /** The interval answering "bytes=a-(a+k-1)". */
  function Piece(size: nat, k: nat, a: nat): (r: Option<(int, int)>)
    requires k > 0 && a < size
    ensures r == Some((a, if a + k > size then size - 1 else a + k - 1))
  {
    SyntaxOf(Decimal(a), Decimal(a + k - 1));
    ParseRange("bytes=" + IntervalText(a, a + k - 1), size)
  }

  /** The body of the response to that request. */
  function PieceBody(file: string, k: nat, a: nat): (body: string)
    requires k > 0 && a < |file|
    ensures body == file[a..if a + k > |file| then |file| else a + k]
  {
    Slice(file, Piece(|file|, k, a))
  }

  /** The bodies of the pieces of `k` bytes from offset `a` on, in order. */
  function PiecesFrom(file: string, k: nat, a: nat): string
    requires k > 0
    decreases |file| - a
  {
    if a >= |file| then "" else PieceBody(file, k, a) + PiecesFrom(file, k, a + k)
  }

  lemma {:induction false} PiecesAreRest(file: string, k: nat, a: nat)
    requires k > 0 && a <= |file|
    ensures PiecesFrom(file, k, a) == file[a..]
    decreases |file| - a
  {
    if a < |file| {
      var b := if a + k > |file| then |file| else a + k;
      if a + k < |file| {
        PiecesAreRest(file, k, b);
      }
      SplitAt(file, a, b);
    }
  }

  lemma SplitAt(file: string, a: nat, b: nat)
    requires a <= b <= |file|
    ensures file[a..] == file[a..b] + file[b..]
  {
  }

  /** For every file and piece size, the pieces fetched one after the other are the file,
      the last one clamped to what is left. */
  lemma Reassembly(file: string, k: nat)
    requires k > 0
    ensures PiecesFrom(file, k, 0) == file
  {
    PiecesAreRest(file, k, 0);
  }
}
