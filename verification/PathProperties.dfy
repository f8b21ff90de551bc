/** What `normalize` means: a reference reading of the decoded segments by depth, the
    round trip with the percent-encoder, listing links and root containment. */
module PathProperties {
  import opened Text
  import opened FileServer

  // ---- The reference reading ----

  /** Depth below the root after the first `k` segments, negative once above it. */
  function Depth(segs: seq<string>, k: nat): int
    requires k <= |segs|
  {
    if k == 0 then 0
    else Depth(segs, k - 1) + (if Ordinary(segs[k - 1]) then 1 else if segs[k - 1] == ".." then -1 else 0)
  }

  /** Some prefix has more ".." than ordinary segments. */
  ghost predicate Climbs(segs: seq<string>) {
    exists k :: 0 <= k <= |segs| && Depth(segs, k) < 0
  }

  /** Segment `i` is ordinary and no later ".." cancels it. */
  ghost predicate Survives(segs: seq<string>, i: nat, k: nat)
    requires i < k <= |segs|
  {
    Ordinary(segs[i]) && forall j :: i < j <= k ==> Depth(segs, j) > Depth(segs, i)
  }

  /** The surviving ones of the first `i` segments, in order, survival judged on `segs[..k]`. */
  ghost function Survivors(segs: seq<string>, i: nat, k: nat): seq<string>
    requires i <= k <= |segs|
  {
    if i == 0 then []
    else Survivors(segs, i - 1, k) + if Survives(segs, i - 1, k) then [segs[i - 1]] else []
  }

  /** Walking with a stack of positions: `at[t]` is the segment that holds level `t`. */
  ghost predicate Positions(segs: seq<string>, k: nat, at: seq<nat>)
    requires k <= |segs|
  {
    && |at| == Depth(segs, k)
    && (forall t :: 0 <= t < |at| ==> at[t] < k && Survives(segs, at[t], k) && Depth(segs, at[t]) == t)
    && (forall t, u :: 0 <= t < u < |at| ==> at[t] < at[u])
    && (forall i :: 0 <= i < k && Survives(segs, i, k) ==> 0 <= Depth(segs, i) < |at| && at[Depth(segs, i)] == i)
  }

  ghost function Pick(segs: seq<string>, at: seq<nat>): (parts: seq<string>)
    requires forall t :: 0 <= t < |at| ==> at[t] < |segs|
    ensures |parts| == |at|
  {
    seq(|at|, t requires 0 <= t < |at| => segs[at[t]])
  }

  lemma SurvivesOneMore(segs: seq<string>, i: nat, k: nat)
    requires i < k < |segs|
    ensures Survives(segs, i, k + 1) <==> Survives(segs, i, k) && Depth(segs, k + 1) > Depth(segs, i)
  {
  }

  lemma PickMore(segs: seq<string>, at: seq<nat>, k: nat)
    requires k < |segs| && forall t :: 0 <= t < |at| ==> at[t] < |segs|
    ensures Pick(segs, at + [k]) == Pick(segs, at) + [segs[k]]
  {
  }

  lemma PickLess(segs: seq<string>, at: seq<nat>)
    requires at != [] && forall t :: 0 <= t < |at| ==> at[t] < |segs|
    ensures Pick(segs, at[..|at| - 1]) == Pick(segs, at)[..|at| - 1]
  {
  }

  /** An ordinary segment goes on top. */
  lemma PositionsPush(segs: seq<string>, k: nat, at: seq<nat>)
    requires k < |segs| && Positions(segs, k, at) && Ordinary(segs[k])
    ensures Positions(segs, k + 1, at + [k])
  {
    forall i | 0 <= i < k
      ensures Survives(segs, i, k + 1) <==> Survives(segs, i, k) && Depth(segs, k + 1) > Depth(segs, i)
    {
      SurvivesOneMore(segs, i, k);
    }
    assert Survives(segs, k, k + 1);
  }

  /** Any other either cancels the top or changes nothing. */
  lemma PositionsPop(segs: seq<string>, k: nat, at: seq<nat>)
    requires k < |segs| && Positions(segs, k, at) && !Ordinary(segs[k]) && (segs[k] == ".." ==> at != [])
    ensures Positions(segs, k + 1, if segs[k] == ".." then at[..|at| - 1] else at)
  {
    forall i | 0 <= i < k
      ensures Survives(segs, i, k + 1) <==> Survives(segs, i, k) && Depth(segs, k + 1) > Depth(segs, i)
    {
      SurvivesOneMore(segs, i, k);
    }
    assert !Survives(segs, k, k + 1);
  }

  /** Reading segment `k` keeps the positions right. */
  lemma PositionsStep(segs: seq<string>, k: nat, at: seq<nat>) returns (next: seq<nat>)
    requires k < |segs| && Positions(segs, k, at)
    requires segs[k] == ".." ==> at != []
    ensures Positions(segs, k + 1, next)
    ensures Push(Pick(segs, at), segs[k]) == Some(Pick(segs, next))
  {
    hide Pick, Survives;
    if Ordinary(segs[k]) {
      next := at + [k];
      PositionsPush(segs, k, at);
      PickMore(segs, at, k);
    } else {
      next := if segs[k] == ".." then at[..|at| - 1] else at;
      PositionsPop(segs, k, at);
      if segs[k] == ".." {
        PickLess(segs, at);
      }
    }
  }

  lemma OneBelow(at: seq<nat>, i: nat, t: nat, u: nat)
    requires forall v, w :: 0 <= v < w < |at| ==> at[v] < at[w]
    requires forall v :: 0 <= v < |at| ==> (v < t <==> at[v] < i)
    requires t <= |at| && u < |at| && at[u] == i - 1
    ensures u == t - 1
    ensures forall v :: 0 <= v < |at| ==> (v < t - 1 <==> at[v] < i - 1)
  {
    assert at[t - 1] >= i - 1;
  }

  lemma NoneBelow(at: seq<nat>, t: nat)
    requires t <= |at| && forall v :: 0 <= v < |at| ==> (v < t <==> at[v] < 0)
    ensures t == 0
  {
    assert |at| > 0 ==> at[0] >= 0;
  }

  /** Positions list the survivors in order. */
  lemma {:induction false} PickIsSurvivors(segs: seq<string>, k: nat, at: seq<nat>, i: nat, t: nat)
    requires i <= k <= |segs| && t <= |at| && Positions(segs, k, at)
    requires forall u :: 0 <= u < |at| ==> (u < t <==> at[u] < i)
    ensures Survivors(segs, i, k) == Pick(segs, at)[..t]
  {
    if i > 0 {
      if Survives(segs, i - 1, k) {
        OneBelow(at, i, t, Depth(segs, i - 1));
        PickIsSurvivors(segs, k, at, i - 1, t - 1);
        assert Pick(segs, at)[..t] == Pick(segs, at)[..t - 1] + [segs[i - 1]];
      } else {
        forall u | 0 <= u < |at| ensures at[u] != i - 1 {
          assert Survives(segs, at[u], k);
        }
        PickIsSurvivors(segs, k, at, i - 1, t);
      }
    } else {
      NoneBelow(at, t);
    }
  }

  lemma {:induction false} WalkFrom(segs: seq<string>, k: nat, at: seq<nat>)
    requires k <= |segs| && Positions(segs, k, at)
    requires forall j :: 0 <= j <= k ==> Depth(segs, j) >= 0
    ensures var w := Walk(segs[k..], Pick(segs, at));
            && (w == None <==> Climbs(segs))
            && (w != None ==> w.value == Survivors(segs, |segs|, |segs|))
    decreases |segs| - k
  {
    if k == |segs| {
      PickIsSurvivors(segs, k, at, k, |at|);
      assert Pick(segs, at)[..|at|] == Pick(segs, at);
    } else {
      assert segs[k..][1..] == segs[k + 1..];
      if segs[k] == ".." && at == [] {
        assert Depth(segs, k + 1) < 0;
      } else {
        var next := PositionsStep(segs, k, at);
        WalkFrom(segs, k + 1, next);
      }
    }
  }

  /** The stack walk fails exactly on the paths that climb above the root, and otherwise
      leaves exactly the segments no later ".." cancels. */
  lemma WalkIsReference(segs: seq<string>)
    ensures Walk(segs, []) == None <==> Climbs(segs)
    ensures Walk(segs, []) != None ==> Walk(segs, []).value == Survivors(segs, |segs|, |segs|)
  {
    assert segs[0..] == segs;
    assert Pick(segs, []) == [];
    WalkFrom(segs, 0, []);
  }

  // ---- What normalize returns ----

  predicate CanonicalPart(p: string) {
    p != "" && p[0] != '.' && '/' !in p && Clean(p)
  }

  predicate CanonicalParts(parts: seq<string>) {
    forall i :: 0 <= i < |parts| ==> CanonicalPart(parts[i])
  }

  /** "/" or '/'-led segments that are non-empty, not dot-led and free of control characters. */
  ghost predicate Canonical(q: string) {
    exists parts :: CanonicalParts(parts) && q == PathOf(parts)
  }

  lemma CleanPieces(s: string)
    requires Clean(s)
    ensures forall p :: p in Split(s, '/') ==> Clean(p)
    decreases |s|
  {
    var i := Find(s, "/", 0);
    if i != NPOS {
      CleanPieces(s[i + 1..]);
    }
  }

  lemma SurvivorsAreOrdinary(segs: seq<string>, i: nat, k: nat)
    requires i <= k <= |segs|
    ensures forall p :: p in Survivors(segs, i, k) ==> p in segs && Ordinary(p)
  {
  }

  /** `normalize` rejects exactly when the decoded path holds a forbidden control
      character, climbs above the root, or keeps a dot-led segment; otherwise it returns
      the uncancelled segments, always in canonical form. */
  lemma NormalizeMeaning(path: string)
    ensures var d := Decode(path);
            var segs := Split(d, '/');
            var kept := Survivors(segs, |segs|, |segs|);
            var r := NormalizedText(path);
            && (r == "" <==> !Clean(d) || Climbs(segs) || !NoDotLed(kept))
            && (r != "" ==> r == PathOf(kept) && Canonical(r))
  {
    var d := Decode(path);
    var segs := Split(d, '/');
    var kept := Survivors(segs, |segs|, |segs|);
    WalkIsReference(segs);
    SurvivorsAreOrdinary(segs, |segs|, |segs|);
    PathOfNotEmpty(kept);
    if Clean(d) && NoDotLed(kept) {
      CleanPieces(d);
      SplitPieces(d, '/');
      forall i | 0 <= i < |kept| ensures CanonicalPart(kept[i]) {
        assert kept[i] in segs;
      }
      assert CanonicalParts(kept);
    }
  }

  lemma PathOfNotEmpty(parts: seq<string>)
    ensures PathOf(parts) != ""
  {
  }

  // ---- Percent-encoding ----

  /** The range of `unsigned char`. */
  predicate Octets(s: string) {
    forall i :: 0 <= i < |s| ==> (s[i] as int) < 256
  }

  predicate Unreserved(c: char) {
    'a' <= c <= 'z' || 'A' <= c <= 'Z' || '0' <= c <= '9' || c == '-' || c == '_' || c == '.' || c == '~' || c == '/'
  }

  function HexDigit(n: int): (c: char)
    requires 0 <= n < 16
    ensures HexValue(c) == Some(n)
  {
    "0123456789ABCDEF"[n]
  }

  function EncodeChar(c: char): string
    requires (c as int) < 256
  {
    if Unreserved(c) then [c]
    else if c == ' ' then "%20"
    else ['%', HexDigit(c as int / 16), HexDigit(c as int % 16)]
  }

  function EncodedText(s: string): string
    requires Octets(s)
  {
    if s == "" then "" else EncodeChar(s[0]) + EncodedText(s[1..])
  }

  method UrlEncodePath(s: string) returns (out: string)
    requires Octets(s)
    ensures out == EncodedText(s)
  {
    out := "";
    for i := 0 to |s|
      invariant out + EncodedText(s[i..]) == EncodedText(s)
    {
      var c := s[i];
      ghost var before := out;
      if Unreserved(c) {
        out := out + [c];
      } else if c == ' ' {
        out := out + "%20";
      } else {
        out := out + "%";
        out := out + [HexDigit(c as int / 16)];
        out := out + [HexDigit(c as int % 16)];
      }
      assert out == before + EncodeChar(c);
      EncodedStep(s, i);
      Assoc(before, EncodeChar(c), EncodedText(s[i + 1..]));
    }
    assert s[|s|..] == "";
    assert out + "" == out;
  }

  lemma EncodedStep(s: string, i: nat)
    requires Octets(s) && i < |s|
    ensures EncodedText(s[i..]) == EncodeChar(s[i]) + EncodedText(s[i + 1..])
  {
    assert s[i..][1..] == s[i + 1..];
  }

  lemma DecodeEncodedChar(c: char, rest: string)
    requires 0 < c as int < 256
    ensures Decode(EncodeChar(c) + rest) == [c] + Decode(rest)
  {
    var s := EncodeChar(c) + rest;
    if Unreserved(c) {
      assert s[1..] == rest;
    } else {
      assert s[1] == EncodeChar(c)[1] && s[2] == EncodeChar(c)[2];
      assert HexValue('2') == Some(2) && HexValue('0') == Some(0);
      assert PairValue(s[1], s[2]) == c as int;
      assert s[3..] == rest;
    }
  }

  /** Percent-decoding undoes percent-encoding on text without NUL. */
  lemma {:induction false} DecodeEncode(s: string)
    requires Octets(s) && forall i :: 0 <= i < |s| ==> s[i] != '\0'
    ensures Decode(EncodedText(s)) == s
  {
    if s != "" {
      DecodeEncode(s[1..]);
      DecodeEncodedChar(s[0], EncodedText(s[1..]));
    }
  }

  lemma {:induction false} SplitSlashed(parts: seq<string>)
    requires forall i :: 0 <= i < |parts| ==> '/' !in parts[i]
    ensures Split(Slashed(parts), '/') == [""] + parts
  {
    if parts == [] {
      SplitNone("", '/');
    } else {
      var init, last := parts[..|parts| - 1], parts[|parts| - 1];
      SplitSlashed(init);
      SplitConcat(Slashed(init), '/', last);
      SplitNone(last, '/');
      assert parts == init + [last];
    }
  }

  lemma {:induction false} WalkOrdinary(parts: seq<string>, stack: seq<string>)
    requires forall i :: 0 <= i < |parts| ==> Ordinary(parts[i])
    ensures Walk(parts, stack) == Some(stack + parts)
    decreases |parts|
  {
    if parts == [] {
      assert stack + parts == stack;
    } else {
      WalkOrdinary(parts[1..], stack + [parts[0]]);
      assert stack + [parts[0]] + parts[1..] == stack + parts;
    }
  }

  lemma {:induction false} CleanSlashed(parts: seq<string>)
    requires forall i :: 0 <= i < |parts| ==> Clean(parts[i])
    ensures Clean(Slashed(parts))
  {
    if parts != [] {
      CleanSlashed(parts[..|parts| - 1]);
    }
  }

  lemma {:induction false} WalkConcat(a: seq<string>, b: seq<string>, stack: seq<string>)
    ensures Walk(a + b, stack)
            == match Walk(a, stack)
               case None => None
               case Some(next) => Walk(b, next)
    decreases |a|
  {
    if a == [] {
      assert a + b == b;
    } else {
      assert (a + b)[1..] == a[1..] + b;
      match Push(stack, a[0])
      case None =>
      case Some(next) => WalkConcat(a[1..], b, next);
    }
  }

  lemma WalkEmptySegment(stack: seq<string>)
    ensures Walk([""], stack) == Some(stack)
  {
    assert [""][1..] == [];
  }

  /** Canonical paths are fixed points of normalize once the decoder is out of the way. */
  lemma NormalizeDecodedCanonical(path: string, parts: seq<string>)
    requires CanonicalParts(parts) && Decode(path) == PathOf(parts)
    ensures NormalizedText(path) == PathOf(parts)
  {
    var d := Decode(path);
    CleanSlashed(parts);
    WalkOrdinary(parts, []);
    assert [] + parts == parts;
    if parts == [] {
      SplitFirst("", '/', "");
      SplitNone("", '/');
      assert d == "" + ['/'] + "";
      WalkConcat([""], [""], []);
      WalkEmptySegment([]);
    } else {
      SplitSlashed(parts);
      WalkConcat([""], parts, []);
      WalkEmptySegment([]);
    }
  }

  /** The encoder names a canonical path in a way normalize reads back. */
  lemma EncodeThenNormalize(q: string)
    requires Canonical(q) && Octets(q)
    ensures NormalizedText(EncodedText(q)) == q
  {
    var parts :| CanonicalParts(parts) && q == PathOf(parts);
    CleanSlashed(parts);
    DecodeEncode(q);
    NormalizeDecodedCanonical(EncodedText(q), parts);
  }

  // ---- Normalising twice ----

  lemma {:induction false} DecodeShortens(s: string)
    ensures |Decode(s)| <= |s|
    ensures |Decode(s)| == |s| ==> Decode(s) == s
  {
    if s != "" {
      DecodeShortens(s[Width(s)..]);
    }
  }

  function PieceBytes(segs: seq<string>): nat {
    if segs == [] then 0 else |segs[0]| + 1 + PieceBytes(segs[1..])
  }

  lemma {:induction false} SplitBytes(s: string, c: char)
    ensures PieceBytes(Split(s, c)) == |s| + 1
    decreases |s|
  {
    var i := Find(s, [c], 0);
    if i == NPOS {
      assert Split(s, c)[1..] == [];
    } else {
      SplitBytes(s[i + 1..], c);
      assert Split(s, c)[1..] == Split(s[i + 1..], c);
    }
  }

  lemma PushBytes(stack: seq<string>, seg: string)
    requires Push(stack, seg) != None
    ensures |Slashed(Push(stack, seg).value)| <= |Slashed(stack)| + |seg| + 1
  {
    assert (stack + [seg])[..|stack|] == stack;
  }

  lemma {:induction false} WalkBytes(segs: seq<string>, stack: seq<string>)
    requires Walk(segs, stack) != None
    ensures |Slashed(Walk(segs, stack).value)| <= |Slashed(stack)| + PieceBytes(segs)
    decreases |segs|
  {
    if segs != [] {
      PushBytes(stack, segs[0]);
      WalkBytes(segs[1..], Push(stack, segs[0]).value);
    }
  }

  lemma SlashedStartsWithSlash(parts: seq<string>)
    requires parts != []
    ensures Slashed(parts) != "" && Slashed(parts)[0] == '/'
  {
    if |parts| > 1 {
      SlashedStartsWithSlash(parts[..|parts| - 1]);
    }
  }

  /** A rooted text that still decodes to something shorter normalises to something else. */
  lemma ShrinkingPathMoves(q: string)
    requires q != "" && q[0] == '/' && |q| > 1 && |Decode(q)| < |q|
    ensures NormalizedText(q) != q
  {
    DecodeRooted(q);
    var rest := Decode(q)[1..];
    hide Decode;
    WalkRooted(rest);
    SplitBytes(rest, '/');
    hide Split, Walk, PieceBytes;
    if Walk(Split(rest, '/'), []) != None {
      WalkBytes(Split(rest, '/'), []);
    }
  }

  lemma DecodeRooted(q: string)
    requires q != "" && q[0] == '/'
    ensures Decode(q) == ['/'] + Decode(q[1..]) && Decode(q)[1..] == Decode(q[1..])
  {
  }

  /** The empty segment before the first '/' changes nothing. */
  lemma WalkRooted(rest: string)
    ensures Walk(Split(['/'] + rest, '/'), []) == Walk(Split(rest, '/'), [])
  {
    assert ['/'] + rest == "" + ['/'] + rest;
    SplitFirst("", '/', rest);
    WalkConcat([""], Split(rest, '/'), []);
    WalkEmptySegment([]);
  }

  /** normalize is not idempotent: its result is a fixed point exactly when no escape is
      left in it to decode. */
  lemma NormalizeTwice(path: string)
    requires NormalizedText(path) != ""
    ensures var r := NormalizedText(path);
            NormalizedText(r) == r <==> Decode(r) == r
  {
    var r := NormalizedText(path);
    NormalizeMeaning(path);
    DecodeShortens(r);
    var parts :| CanonicalParts(parts) && r == PathOf(parts);
    if parts != [] {
      SlashedStartsWithSlash(parts);
    }
    if |r| == 1 {
      SingleByteStays(r);
    }
    if Decode(r) == r {
      NormalizeDecodedCanonical(r, parts);
    } else {
      ShrinkingPathMoves(r);
    }
  }

  lemma SingleByteStays(s: string)
    requires |s| == 1
    ensures Decode(s) == s
  {
    assert s[1..] == "" && Decode("") == "";
  }

  /** A doubly encoded path is decoded once per call. */
  lemma NormalizeNotIdempotent()
    ensures NormalizedText("/%2541") == "/%41"
    ensures NormalizedText("/%41") == "/A"
  {
    DecodedOnce();
    DecodedTwice();
    hide Decode;
    OneSegment("/%2541", "%41");
    OneSegment("/%41", "A");
  }

  lemma DecodedOnce()
    ensures Decode("/%2541") == "/%41"
  {
    var q := "/%2541";
    assert q[1..] == "%2541" && q[1..][3..] == "41" && q[1..][3..][1..] == "1" && q[1..][3..][1..][1..] == "";
    assert HexValue('2') == Some(2) && HexValue('5') == Some(5) && HexValue('4') == Some(4) && HexValue('1') == Some(1);
    assert Decode("41") == "41";
    assert Decode("%2541") == "%41";
    assert Decode(q) == "/%41";
  }

  lemma DecodedTwice()
    ensures Decode("/%41") == "/A"
  {
    assert HexValue('4') == Some(4) && HexValue('1') == Some(1);
    assert "/%41"[1..] == "%41" && "%41"[3..] == "";
    assert Decode("%41") == "A";
    assert Decode("/%41") == "/A";
  }

  lemma OneSegment(path: string, name: string)
    requires CanonicalPart(name) && Decode(path) == "/" + name
    ensures NormalizedText(path) == "/" + name
  {
    SlashedOne(name);
    NormalizeDecodedCanonical(path, [name]);
  }

  // ---- Links of the root listing ----

  /** A '/' in the source text is never part of an escape, so decoding splits there. */
  lemma {:induction false} DecodeAtSlash(a: string, b: string)
    ensures Decode(a + "/" + b) == Decode(a) + "/" + Decode(b)
    decreases |a|
  {
    var s := a + "/" + b;
    if a == "" {
      assert s == "/" + b && s[1..] == b;
    } else {
      EscapeEndsBeforeSlash(a, b);
      var n := Width(a);
      assert s[n..] == a[n..] + "/" + b;
      DecodeAtSlash(a[n..], b);
      Reassociate(Head(a), Decode(a[n..]), Decode(b));
    }
  }

  lemma Reassociate(a: string, b: string, c: string)
    ensures a + (b + "/" + c) == (a + b) + "/" + c
  {
  }

  lemma EscapeEndsBeforeSlash(a: string, b: string)
    requires a != ""
    ensures Width(a + "/" + b) == Width(a) && Head(a + "/" + b) == Head(a)
  {
    var s := a + "/" + b;
    assert s[0] == a[0];
    if |a| > 2 {
      assert s[1] == a[1] && s[2] == a[2];
    } else if |a| == 2 {
      assert s[2] == '/';
    } else if |s| > 2 {
      assert s[1] == '/';
    }
  }

  /** The href that `build_directory_html` writes for an entry of the root listing. */
  function RootHref(requestPath: string, name: string, isDirectory: bool): string
    requires Octets(name)
  {
    var prefix := if requestPath == "" || requestPath[|requestPath| - 1] != '/' then requestPath + "/" else requestPath;
    prefix + EncodedText(name) + if isDirectory then "/" else ""
  }

  /** Appending a listed name below a text that reads as the root names that entry. */
  lemma NameBelowRoot(base: string, name: string)
    requires Clean(base) && Walk(Split(base, '/'), []) == Some([])
    requires CanonicalPart(name)
    ensures var d := base + "/" + name;
            Clean(d) && Walk(Split(d, '/'), []) == Some([name])
  {
    SplitNone(name, '/');
    SplitConcat(base, '/', name);
    WalkConcat(Split(base, '/'), [name], []);
    WalkOrdinary([name], []);
    assert [] + [name] == [name];
  }

  lemma TrailingSlash(d: string, parts: seq<string>)
    requires Clean(d) && Walk(Split(d, '/'), []) == Some(parts)
    ensures Clean(d + "/") && Walk(Split(d + "/", '/'), []) == Some(parts)
  {
    SplitNone("", '/');
    SplitConcat(d, '/', "");
    assert d + ['/'] + "" == d + "/";
    WalkConcat(Split(d, '/'), [""], []);
    WalkEmptySegment(parts);
  }

  /** A name that `list_directory` lists: no empty name, none with a leading dot, and, as the
      file system has it, none with a '/' or a NUL in it. */
  predicate Listed(name: string) {
    name != "" && name[0] != '.' && forall i :: 0 <= i < |name| ==> name[i] != '/' && name[i] != '\0'
  }

  lemma DecodeHrefTail(name: string, isDirectory: bool)
    requires Listed(name) && Octets(name)
    ensures Decode(EncodedText(name) + if isDirectory then "/" else "") == name + if isDirectory then "/" else ""
  {
    DecodeEncode(name);
    if isDirectory {
      DecodeAtSlash(EncodedText(name), "");
      assert EncodedText(name) + "/" + "" == EncodedText(name) + "/";
      assert name + "/" + Decode("") == name + "/";
    } else {
      assert EncodedText(name) + "" == EncodedText(name);
    }
  }

  /** For any request path that normalises to the root, the link of a listed name leads
      to that name exactly when the name holds no forbidden control character. */
  lemma RootHrefLeadsToEntry(requestPath: string, name: string, isDirectory: bool)
    requires NormalizedText(requestPath) == "/"
    requires Listed(name) && Octets(name)
    ensures NormalizedText(RootHref(requestPath, name, isDirectory)) == "/" + name <==> Clean(name)
  {
    hide Decode, Split;
    var slashed := requestPath != "" && requestPath[|requestPath| - 1] == '/';
    var base := if slashed then requestPath[..|requestPath| - 1] else requestPath;
    RootBase(requestPath, base, slashed);
    assert slashed ==> requestPath == base + "/";
    DecodeHref(requestPath, base, slashed, name, isDirectory);
    if Clean(name) {
      HrefSegments(Decode(base), name, isDirectory);
      SlashedOne(name);
    } else {
      UncleanInside(Decode(base) + "/", name, if isDirectory then "/" else "");
    }
  }

  lemma UncleanInside(before: string, name: string, after: string)
    requires !Clean(name)
    ensures !Clean(before + name + after)
  {
    var i :| 0 <= i < |name| && Forbidden(name[i]);
    assert (before + name + after)[|before| + i] == name[i];
  }

  lemma DecodeHref(requestPath: string, base: string, slashed: bool, name: string, isDirectory: bool)
    requires slashed <==> requestPath != "" && requestPath[|requestPath| - 1] == '/'
    requires requestPath == if slashed then base + "/" else base
    requires Listed(name) && Octets(name)
    ensures Decode(RootHref(requestPath, name, isDirectory))
            == Decode(base) + "/" + name + if isDirectory then "/" else ""
  {
    var tail := if isDirectory then "/" else "";
    Assoc(base + "/", EncodedText(name), tail);
    DecodeHrefTail(name, isDirectory);
    DecodeAtSlash(base, EncodedText(name) + tail);
    Assoc(Decode(base) + "/", name, tail);
  }

  lemma HrefSegments(base: string, name: string, isDirectory: bool)
    requires Clean(base) && Walk(Split(base, '/'), []) == Some([])
    requires CanonicalPart(name)
    ensures var d := base + "/" + name + if isDirectory then "/" else "";
            Clean(d) && Walk(Split(d, '/'), []) == Some([name])
  {
    NameBelowRoot(base, name);
    var d := base + "/" + name;
    if isDirectory {
      TrailingSlash(d, [name]);
    } else {
      assert d + "" == d;
    }
  }

  lemma SlashedOne(name: string)
    ensures PathOf([name]) == "/" + name
  {
    assert [name][..0] == [] && Slashed([]) == "";
    assert "" + "/" + name == "/" + name;
  }

  lemma RootBase(requestPath: string, base: string, slashed: bool)
    requires NormalizedText(requestPath) == "/"
    requires requestPath == if slashed then base + "/" else base
    ensures Clean(Decode(base)) && Walk(Split(Decode(base), '/'), []) == Some([])
  {
    var d := Decode(requestPath);
    var parts := Walk(Split(d, '/'), []).value;
    if parts != [] {
      var last := parts[|parts| - 1];
      assert Slashed(parts) == Slashed(parts[..|parts| - 1]) + "/" + last;
      assert |Slashed(parts)| == 1;
      assert last == "";
      assert last in parts;
      WalkIsReference(Split(d, '/'));
      SurvivorsAreOrdinary(Split(d, '/'), |Split(d, '/')|, |Split(d, '/')|);
      assert false;
    }
    if slashed {
      DecodeAtSlash(base, "");
      assert base + "/" + "" == requestPath;
      assert d == Decode(base) + ['/'] + "";
      SplitConcat(Decode(base), '/', "");
      SplitNone("", '/');
      WalkConcat(Split(Decode(base), '/'), [""], []);
      assert [""][1..] == [];
      assert forall i :: 0 <= i < |Decode(base)| ==> Decode(base)[i] == d[i];
    }
  }

  // ---- Containment in the root directory ----

  /** `is_within_root`: a plain prefix, and then the end or a '/'. */
  predicate IsWithinRoot(resolved: string, root: string) {
    Find(resolved, root, 0) == 0
    && (|resolved| == |root| || resolved[|root|] == '/')
  }

  lemma WithinThenLeads(resolved: string, root: string)
    requires IsWithinRoot(resolved, root)
    ensures Split(root, '/') <= Split(resolved, '/')
  {
    hide Split;
    assert resolved[0..|root|] == root;
    if |resolved| != |root| {
      assert resolved == root + ['/'] + resolved[|root| + 1..];
      SplitConcat(root, '/', resolved[|root| + 1..]);
    } else {
      assert resolved == root;
    }
  }

  lemma LeadsThenWithin(resolved: string, root: string)
    requires Split(root, '/') <= Split(resolved, '/')
    ensures IsWithinRoot(resolved, root)
  {
    hide Split, JoinWith;
    var parts, all := Split(root, '/'), Split(resolved, '/');
    var more := all[|parts|..];
    JoinSplit(root, '/');
    JoinSplit(resolved, '/');
    assert all == parts + more;
    if more == [] {
      assert all == parts;
      StartsWithin(resolved, root, "");
    } else {
      JoinWithConcat(parts, more, '/');
      StartsWithin(resolved, root, ['/'] + JoinWith(more, '/'));
    }
  }

  lemma StartsWithin(resolved: string, root: string, rest: string)
    requires resolved == root + rest && (rest == "" || rest[0] == '/')
    ensures IsWithinRoot(resolved, root)
  {
    assert resolved[0..|root|] == root;
    FindIs(resolved, root, 0, 0);
  }

  /** The byte test is the test on path components: `root`'s components lead `resolved`'s. */
  lemma WithinRootIsComponentwise(resolved: string, root: string)
    ensures IsWithinRoot(resolved, root) <==> Split(root, '/') <= Split(resolved, '/')
  {
    hide IsWithinRoot, Split;
    if IsWithinRoot(resolved, root) {
      WithinThenLeads(resolved, root);
    }
    if Split(root, '/') <= Split(resolved, '/') {
      LeadsThenWithin(resolved, root);
    }
  }
}
