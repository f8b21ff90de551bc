/** What a percent-escape means, for every pair of characters after a '%', and that decoding
    undoes every way of writing escapes; the text that `url_encode_path` writes. */
module EscapeProperties {
  import opened Text
  import opened FileServer
  import opened PathProperties

  // ---- Hexadecimal digits ----

  const LOWER := "0123456789abcdef"
  const UPPER := "0123456789ABCDEF"

  /** `c` is the digit for `n`, in either case. */
  predicate Shows(c: char, n: int) {
    0 <= n < 16 && (c == LOWER[n] || c == UPPER[n])
  }

  lemma DigitShown(c: char, n: int)
    requires Shows(c, n)
    ensures HexValue(c) == Some(n)
  {
  }

  lemma NoDigitShown(c: char)
    ensures HexValue(c) == None ==> forall n :: !Shows(c, n)
    ensures HexValue(c) != None ==> Shows(c, HexValue(c).value)
  {
  }

  /** What `strtol` skips or allows in front of digits. */
  const SKIPPED := [' ', '\t', '\n', 11 as char, 12 as char, '\r', '+']

  /** After a '%', the characters `a` and `b` stand for the octet `n`: two digits, or one
      digit after a blank or a plus sign. Nothing stands for 0. */
  ghost predicate Stands(a: char, b: char, n: int) {
    0 < n < 256 && Shows(b, n % 16) && (Shows(a, n / 16) || (n < 16 && a in SKIPPED))
  }

  lemma SkippedIs(c: char)
    ensures c in SKIPPED <==> IsSpace(c) || c == '+'
  {
    assert SKIPPED[0] == ' ' && SKIPPED[1] == '\t' && SKIPPED[2] == '\n' && SKIPPED[3] == 11 as char;
    assert SKIPPED[4] == 12 as char && SKIPPED[5] == '\r' && SKIPPED[6] == '+';
  }

  lemma SkippedShowsNothing(c: char)
    requires c in SKIPPED
    ensures HexValue(c) == None
  {
  }

  lemma StandsValue(a: char, b: char, n: int)
    requires Stands(a, b, n)
    ensures PairValue(a, b) == n
  {
    DigitShown(b, n % 16);
    if Shows(a, n / 16) {
      DigitShown(a, n / 16);
    } else {
      SkippedIs(a);
      SkippedShowsNothing(a);
    }
  }

  lemma ValueStands(a: char, b: char)
    requires PairValue(a, b) > 0
    ensures Stands(a, b, PairValue(a, b))
  {
    NoDigitShown(a);
    NoDigitShown(b);
    SkippedIs(a);
    hide HexValue, Shows, SKIPPED, IsSpace;
    if HexValue(a).Some? {
      Quotient(HexValue(a).value, HexValue(b).value);
    }
  }

  lemma Quotient(h: int, l: int)
    requires 0 <= h < 16 && 0 <= l < 16
    ensures (16 * h + l) / 16 == h && (16 * h + l) % 16 == l
  {
  }

  // ---- What decoding does, for every text ----

  /** A '%' with two characters behind it that stand for an octet is that octet; any other
      '%', and any other character, is itself. */
  lemma EscapeMeans(a: char, b: char, rest: string)
    ensures forall n :: Stands(a, b, n) ==> Decode("%" + [a, b] + rest) == [n as char] + Decode(rest)
    ensures (forall n :: !Stands(a, b, n)) ==> Decode("%" + [a, b] + rest) == "%" + Decode([a, b] + rest)
  {
    var s := "%" + [a, b] + rest;
    assert s[1] == a && s[2] == b && s[3..] == rest && s[1..] == [a, b] + rest;
    forall n | Stands(a, b, n) ensures Decode(s) == [n as char] + Decode(rest) {
      StandsValue(a, b, n);
    }
    if PairValue(a, b) > 0 {
      ValueStands(a, b);
    }
  }

  lemma OtherMeans(c: char, rest: string)
    requires c != '%' || |rest| < 2
    ensures Decode([c] + rest) == [c] + Decode(rest)
  {
    assert ([c] + rest)[1..] == rest;
  }

  /** An octet written with two digits, each in either case, is that octet. */
  lemma EitherCase(c: char, high: char, low: char, rest: string)
    requires 0 < c as int < 256 && Shows(high, c as int / 16) && Shows(low, c as int % 16)
    ensures Decode("%" + [high, low] + rest) == [c] + Decode(rest)
  {
    EscapeMeans(high, low, rest);
    assert Stands(high, low, c as int);
  }

  // ---- Every encoder is undone ----

  /** `e` writes `s`: each character as itself, unless it is '%', or as '%' and its two digits
      in any case. */
  ghost predicate Writes(e: string, s: string)
    decreases |s|
  {
    if s == "" then e == ""
    else
      || (s[0] != '%' && e != "" && e[0] == s[0] && Writes(e[1..], s[1..]))
      || (|e| > 2 && e[0] == '%' && Shows(e[1], s[0] as int / 16) && Shows(e[2], s[0] as int % 16)
          && Writes(e[3..], s[1..]))
  }

  /** Whatever set of characters an encoder escapes, as long as '%' is among them, and in
      whatever case it writes the digits, decoding gives the text back. */
  lemma {:induction false} DecodeUndoes(e: string, s: string)
    requires Writes(e, s) && Octets(s) && '\0' !in s
    ensures Decode(e) == s
    decreases |s|
  {
    if s == "" {
    } else if s[0] != '%' && e != "" && e[0] == s[0] && Writes(e[1..], s[1..]) {
      DecodeUndoes(e[1..], s[1..]);
      OtherMeans(s[0], e[1..]);
      assert e == [s[0]] + e[1..];
    } else {
      DecodeUndoes(e[3..], s[1..]);
      EitherCase(s[0], e[1], e[2], e[3..]);
      assert e == "%" + [e[1], e[2]] + e[3..];
    }
  }

  /** Text without '%' is left alone. */
  lemma {:induction false} PlainTextStays(s: string)
    requires '%' !in s
    ensures Decode(s) == s
  {
    if s != "" {
      OtherMeans(s[0], s[1..]);
      assert s == [s[0]] + s[1..];
      PlainTextStays(s[1..]);
    }
  }

  // ---- The encoder of directory listings ----

  /** The unreserved characters of section 2.3 of RFC 3986, and '/'. */
  predicate Kept(c: char) {
    c in SMALL || c in CAPITALS || c in DIGITS || c in "-._~/"
  }

  lemma KeptAre(c: char)
    ensures Unreserved(c) <==> Kept(c)
  {
    SmallAre(c);
    CapitalsAre(c);
    DigitsAre(c);
    assert "-._~/" == ['-', '.', '_', '~', '/'];
  }

  /** `e` writes `s` as the server does: the kept characters as themselves, all others escaped
      with capital digits. */
  ghost predicate WritesCapital(e: string, s: string)
    decreases |s|
  {
    if s == "" then e == ""
    else if Kept(s[0]) then e != "" && e[0] == s[0] && WritesCapital(e[1..], s[1..])
    else
      && |e| > 2 && (s[0] as int) < 256
      && e[..3] == ['%', UPPER[s[0] as int / 16], UPPER[s[0] as int % 16]]
      && WritesCapital(e[3..], s[1..])
  }

  lemma CharWrites(c: char, rest: string)
    requires (c as int) < 256
    ensures var e := EncodeChar(c) + rest;
            if Kept(c) then c != '%' && e == [c] + rest
            else |e| > 2 && e[..3] == ['%', UPPER[c as int / 16], UPPER[c as int % 16]] && e[3..] == rest
  {
    KeptAre(c);
    assert "%20" == ['%', UPPER[2], UPPER[0]];
    assert (EncodeChar(c) + rest)[..|EncodeChar(c)|] == EncodeChar(c);
    assert (EncodeChar(c) + rest)[|EncodeChar(c)|..] == rest;
  }

  lemma {:induction false} EncoderWrites(s: string)
    requires Octets(s)
    ensures WritesCapital(EncodedText(s), s) && Writes(EncodedText(s), s)
  {
    hide EncodeChar, Kept;
    if s != "" {
      EncoderWrites(s[1..]);
      CharWrites(s[0], EncodedText(s[1..]));
      if !Kept(s[0]) {
        FirstThree(EncodedText(s), UPPER[s[0] as int / 16], UPPER[s[0] as int % 16]);
      }
    }
  }

  lemma FirstThree(e: string, a: char, b: char)
    requires |e| > 2 && e[..3] == ['%', a, b]
    ensures e[0] == '%' && e[1] == a && e[2] == b
  {
    assert e[0] == e[..3][0] && e[1] == e[..3][1] && e[2] == e[..3][2];
  }
}
