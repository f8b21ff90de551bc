/** Mapping request paths to files: percent-decoding, path normalisation, the
    containment test, and the links of a directory listing. */
module FileServer {
  import opened Text

  // ---- Percent-decoding ----

  function HexValue(c: char): (v: Option<int>)
    ensures v.Some? ==> 0 <= v.value < 16
  {
    if '0' <= c <= '9' then Some(c as int - '0' as int)
    else if 'a' <= c <= 'f' then Some(c as int - 'a' as int + 10)
    else if 'A' <= c <= 'F' then Some(c as int - 'A' as int + 10)
    else None
  }

  predicate IsSpace(c: char) {
    c == ' ' || 9 <= c as int <= 13
  }

  /** What `strtol` with base 16 makes of the two characters after a '%', provided it
      consumes both; 0 when it does not. A blank or a sign may take the first place. */
  function PairValue(a: char, b: char): (v: int)
    ensures -15 <= v < 256
  {
    match (HexValue(a), HexValue(b))
    case (Some(h), Some(l)) => 16 * h + l
    case (None, Some(l)) => if IsSpace(a) || a == '+' then l else if a == '-' then -l else 0
    case _ => 0
  }

  predicate Escaped(s: string) {
    |s| > 2 && s[0] == '%' && PairValue(s[1], s[2]) > 0
  }

  /** How much of the text the next decoded byte takes, and that byte. */
  function Width(s: string): (n: nat)
    requires s != ""
    ensures 0 < n <= |s|
  {
    if Escaped(s) then 3 else 1
  }

  function Head(s: string): string
    requires s != ""
  {
    if Escaped(s) then [PairValue(s[1], s[2]) as char] else [s[0]]
  }

  function Decode(s: string): string {
    if s == "" then "" else Head(s) + Decode(s[Width(s)..])
  }

  // ---- Segments and the walk over them ----

  predicate Forbidden(c: char) {
    (c as int) < 32 && c != '\t'
  }

  predicate Clean(s: string) {
    forall i :: 0 <= i < |s| ==> !Forbidden(s[i])
  }

  predicate Ordinary(seg: string) {
    seg != "" && seg != "." && seg != ".."
  }

  predicate DotLed(seg: string) {
    seg != "" && seg[0] == '.'
  }

  /** One segment read onto the stack: empty and "." leave it, ".." pops, None when
      there is nothing to pop, anything else is pushed. */
  function Push(stack: seq<string>, seg: string): Option<seq<string>> {
    if seg == "" || seg == "." then Some(stack)
    else if seg != ".." then Some(stack + [seg])
    else if stack == [] then None
    else Some(stack[..|stack| - 1])
  }

  /** The stack after reading all of `segs`, None once ".." leaves the root. */
  function Walk(segs: seq<string>, stack: seq<string>): Option<seq<string>>
    decreases |segs|
  {
    if segs == [] then Some(stack)
    else
      match Push(stack, segs[0])
      case None => None
      case Some(next) => Walk(segs[1..], next)
  }

  predicate NoDotLed(parts: seq<string>) {
    forall i :: 0 <= i < |parts| ==> !DotLed(parts[i])
  }

  /** '/' before every part. */
  function Slashed(parts: seq<string>): string {
    if parts == [] then "" else Slashed(parts[..|parts| - 1]) + "/" + parts[|parts| - 1]
  }

  function PathOf(parts: seq<string>): string {
    if parts == [] then "/" else Slashed(parts)
  }

  /** The text `normalize` returns; "" stands for a rejected path. */
  function NormalizedText(path: string): string {
    var decoded := Decode(path);
    if !Clean(decoded) then ""
    else
      match Walk(Split(decoded, '/'), [])
      case None => ""
      case Some(parts) => if NoDotLed(parts) then PathOf(parts) else ""
  }

  // ---- normalize ----

  /** What the next character or escape decodes to, and what is left. */
  lemma DecodeNext(path: string, i: nat)
    requires i <= |path|
    ensures i == |path| ==> Decode(path[i..]) == ""
    ensures i < |path| ==>
              Decode(path[i..])
              == if Escaped(path[i..]) then [PairValue(path[i + 1], path[i + 2]) as char] + Decode(path[i + 3..])
                 else [path[i]] + Decode(path[i + 1..])
  {
    var rest := path[i..];
    if Escaped(rest) {
      assert rest[3..] == path[i + 3..];
    } else if i < |path| {
      assert rest[1..] == path[i + 1..];
    }
  }

  method PercentDecode(path: string) returns (decoded: string)
    ensures decoded == Decode(path)
  {
    hide Decode;
    decoded := "";
    var i := 0;
    assert path[0..] == path && "" + Decode(path) == Decode(path);
    while i < |path|
      invariant 0 <= i <= |path|
      invariant decoded + Decode(path[i..]) == Decode(path)
    {
      DecodeNext(path, i);
      if path[i] == '%' && i + 2 < |path| {
        var val := PairValue(path[i + 1], path[i + 2]);
        if val > 0 {
          Assoc(decoded, [val as char], Decode(path[i + 3..]));
          decoded := decoded + [val as char];
          i := i + 3;
          continue;
        }
      }
      Assoc(decoded, [path[i]], Decode(path[i + 1..]));
      decoded := decoded + [path[i]];
      i := i + 1;
    }
    DecodeNext(path, i);
    RightUnit(decoded);
  }

  /** The segments still to be read at position `start`. */
  ghost function Unread(decoded: string, start: nat): seq<string>
    requires start <= |decoded| + 1
  {
    if start <= |decoded| then Split(decoded[start..], '/') else []
  }

  lemma SkipSlash(decoded: string, start: nat, stack: seq<string>)
    requires start < |decoded| && decoded[start] == '/'
    ensures Walk(Unread(decoded, start), stack) == Walk(Unread(decoded, start + 1), stack)
  {
    assert decoded[start..] == "" + ['/'] + decoded[start + 1..];
    SplitFirst("", '/', decoded[start + 1..]);
    assert Unread(decoded, start)[1..] == Unread(decoded, start + 1);
  }

  lemma NextSegment(decoded: string, start: nat, end: nat)
    requires start < end <= |decoded|
    requires forall j :: start <= j < end ==> decoded[j] != '/'
    requires end == |decoded| || decoded[end] == '/'
    ensures Unread(decoded, start) == [decoded[start..end]] + Unread(decoded, end + 1)
  {
    var seg := decoded[start..end];
    if end == |decoded| {
      assert decoded[start..] == seg;
      SplitNone(seg, '/');
    } else {
      assert decoded[start..] == seg + ['/'] + decoded[end + 1..];
      SplitFirst(seg, '/', decoded[end + 1..]);
    }
  }

  /** How the segment at `start` changes the walk. */
  lemma ReadSegment(decoded: string, start: nat, end: nat, stack: seq<string>)
    requires start < end <= |decoded|
    requires forall j :: start <= j < end ==> decoded[j] != '/'
    requires end == |decoded| || decoded[end] == '/'
    ensures Walk(Unread(decoded, start), stack)
            == match Push(stack, decoded[start..end])
               case None => None
               case Some(next) => Walk(Unread(decoded, end + 1), next)
  {
    NextSegment(decoded, start, end);
    assert Unread(decoded, start)[1..] == Unread(decoded, end + 1);
  }

  method SegmentEnd(decoded: string, start: nat) returns (end: nat)
    requires start < |decoded| && decoded[start] != '/'
    ensures start < end <= |decoded|
    ensures forall j :: start <= j < end ==> decoded[j] != '/'
    ensures end == |decoded| || decoded[end] == '/'
  {
    var found := Find(decoded, "/", start);
    forall j | start <= j < |decoded| && (found == NPOS || j <= found)
      ensures decoded[j] == '/' <==> j == found
    {
      MatchesChar(decoded, '/', j);
    }
    end := if found == NPOS then |decoded| else found;
  }

  /** Splitting at '/', dropping "." and popping for "..": None when a ".." leaves the root. */
  method ResolveSegments(decoded: string) returns (parts: Option<seq<string>>)
    ensures parts == Walk(Split(decoded, '/'), [])
  {
    ghost var target := Walk(Split(decoded, '/'), []);
    var stack: seq<string> := [];
    var start := 0;
    assert decoded[0..] == decoded;
    while start < |decoded|
      invariant 0 <= start <= |decoded| + 1
      invariant Walk(Unread(decoded, start), stack) == target
      decreases |decoded| + 1 - start
    {
      start := SkipSlashes(decoded, start, stack);
      if start >= |decoded| { break; }
      var end, next := TakeSegment(decoded, start, stack);
      if next.None? { return None; }
      stack := next.value;
      start := end + 1;
    }
    assert start <= |decoded| ==> decoded[start..] == "" && Unread(decoded, start)[1..] == [];
    return Some(stack);
  }

  method TakeSegment(decoded: string, start: nat, stack: seq<string>) returns (end: nat, next: Option<seq<string>>)
    requires start < |decoded| && decoded[start] != '/'
    ensures start < end <= |decoded|
    ensures Walk(Unread(decoded, start), stack)
            == match next
               case None => None
               case Some(after) => Walk(Unread(decoded, end + 1), after)
  {
    end := SegmentEnd(decoded, start);
    ReadSegment(decoded, start, end, stack);
    next := Push(stack, decoded[start..end]);
  }

  method SkipSlashes(decoded: string, start: nat, ghost stack: seq<string>) returns (next: nat)
    requires start <= |decoded|
    ensures start <= next <= |decoded|
    ensures next < |decoded| ==> decoded[next] != '/'
    ensures Walk(Unread(decoded, next), stack) == Walk(Unread(decoded, start), stack)
  {
    next := start;
    while next < |decoded| && decoded[next] == '/'
      invariant start <= next <= |decoded|
      invariant Walk(Unread(decoded, next), stack) == Walk(Unread(decoded, start), stack)
    {
      SkipSlash(decoded, next, stack);
      next := next + 1;
    }
  }

  method CheckClean(decoded: string) returns (ok: bool)
    ensures ok == Clean(decoded)
  {
    for i := 0 to |decoded|
      invariant Clean(decoded[..i])
    {
      if Forbidden(decoded[i]) { return false; }
    }
    return true;
  }

  method CheckNoDotLed(parts: seq<string>) returns (ok: bool)
    ensures ok == NoDotLed(parts)
  {
    for i := 0 to |parts|
      invariant NoDotLed(parts[..i])
    {
      if DotLed(parts[i]) { return false; }
    }
    return true;
  }

  method Reassemble(parts: seq<string>) returns (result: string)
    ensures result == PathOf(parts)
  {
    result := "";
    for i := 0 to |parts|
      invariant result == Slashed(parts[..i])
      invariant i > 0 ==> result != ""
    {
      assert parts[..i + 1][..i] == parts[..i];
      result := result + "/" + parts[i];
    }
    assert parts[..|parts|] == parts;
    if result == "" { result := "/"; }
  }

  method Normalize(path: string) returns (result: string)
    ensures result == NormalizedText(path)
  {
    var decoded := PercentDecode(path);
    var clean := CheckClean(decoded);
    if !clean { return ""; }
    var resolved := ResolveSegments(decoded);
    if resolved.None? { return ""; }
    var visible := CheckNoDotLed(resolved.value);
    if !visible { return ""; }
    result := Reassemble(resolved.value);
  }
}
