/**
 Base64 in both alphabets of RFC 4648: the padded one of section 4 and the URL-safe one
 of section 5 without padding. Text is ASCII bytes.
 */
module Base64 {
  import opened Basics

  const PAD: Byte := 0x3D       // '='
  const PLUS: Byte := 0x2B
  const SLASH: Byte := 0x2F
  const MINUS: Byte := 0x2D
  const UNDERSCORE: Byte := 0x5F

  /** The character of a six-bit value. */
  function Digit(v: Byte, url: bool): Byte {
    if v < 26 then v + 0x41
    else if v < 52 then v - 26 + 0x61
    else if v < 62 then v - 52 + 0x30
    else if v == 62 then (if url then MINUS else PLUS)
    else if url then UNDERSCORE else SLASH
  }

  /** The decoder takes both alphabets. */
  function Value(c: Byte): Option<Byte> {
    if 0x41 <= c <= 0x5A then Some(c - 0x41)
    else if 0x61 <= c <= 0x7A then Some(c - 0x61 + 26)
    else if 0x30 <= c <= 0x39 then Some(c - 0x30 + 52)
    else if c == PLUS || c == MINUS then Some(62)
    else if c == SLASH || c == UNDERSCORE then Some(63)
    else None
  }

  function Join3(b0: Byte, b1: Byte, b2: Byte): bv32 {
    (b0 as bv32 << 16) | (b1 as bv32 << 8) | b2 as bv32
  }

  function Sextet(n: bv32, shift: nat): Byte
    requires shift < 32
  {
    ((n >> shift) & 63) as Byte
  }

  function Join4(v0: Byte, v1: Byte, v2: Byte, v3: Byte): bv32 {
    (v0 as bv32 << 18) | (v1 as bv32 << 12) | (v2 as bv32 << 6) | v3 as bv32
  }

  function Octet(n: bv32, shift: nat): Byte
    requires shift < 32
  {
    ((n >> shift) & 0xFF) as Byte
  }

  function EncodedChunk(chunk: seq<Byte>, url: bool): seq<Byte>
    requires 1 <= |chunk| <= 3
  {
    var n := Join3(chunk[0], if |chunk| > 1 then chunk[1] else 0, if |chunk| > 2 then chunk[2] else 0);
    [Digit(Sextet(n, 18), url), Digit(Sextet(n, 12), url)]
    + (if |chunk| > 1 then [Digit(Sextet(n, 6), url)] else if url then [] else [PAD])
    + (if |chunk| > 2 then [Digit(Sextet(n, 0), url)] else if url then [] else [PAD])
  }

  function Encoded(bytes: seq<Byte>, url: bool): seq<Byte> {
    if bytes == [] then []
    else if |bytes| <= 3 then EncodedChunk(bytes, url)
    else EncodedChunk(bytes[..3], url) + Encoded(bytes[3..], url)
  }

  method Encode(bytes: seq<Byte>, url: bool) returns (out: seq<Byte>)
    ensures out == Encoded(bytes, url)
  {
    hide EncodedChunk;
    out := [];
    var i := 0;
    assert bytes[0..] == bytes;
    while i < |bytes|
      invariant 0 <= i <= |bytes|
      invariant out + Encoded(bytes[i..], url) == Encoded(bytes, url)
    {
      var take := if |bytes| - i < 3 then |bytes| - i else 3;
      var chunk := bytes[i..i + take];
      ghost var rest := bytes[i..];
      assert |rest| <= 3 ==> chunk == rest && bytes[i + take..] == [];
      assert |rest| > 3 ==> chunk == rest[..3] && bytes[i + take..] == rest[3..];
      assert Encoded(rest, url) == EncodedChunk(chunk, url) + Encoded(bytes[i + take..], url);
      out := out + EncodedChunk(chunk, url);
      i := i + take;
    }
    assert out + [] == out;
  }

  // ---------------------------------------------------------------------------
  // Decoding
  // ---------------------------------------------------------------------------

  predicate IsBlank(c: Byte) {
    c == 0x20 || 0x09 <= c <= 0x0D
  }

  function TrimmedLeft(s: seq<Byte>): seq<Byte> {
    if s != [] && IsBlank(s[0]) then TrimmedLeft(s[1..]) else s
  }

  function TrimmedRight(s: seq<Byte>): seq<Byte> {
    if s != [] && IsBlank(s[|s| - 1]) then TrimmedRight(s[..|s| - 1]) else s
  }

  function Standardized(c: Byte): Byte {
    if c == MINUS then PLUS else if c == UNDERSCORE then SLASH else c
  }

  function AllStandardized(s: seq<Byte>): seq<Byte> {
    seq(|s|, i requires 0 <= i < |s| => Standardized(s[i]))
  }

  function Padded(s: seq<Byte>): seq<Byte>
    decreases (4 - |s| % 4) % 4
  {
    if |s| % 4 == 0 then s else Padded(s + [PAD])
  }

  /** Up to three bytes from four characters, the last two of which may be padding. */
  function DecodedBlock(a: Byte, b: Byte, c: Byte, d: Byte): Result<seq<Byte>> {
    if Value(a).None? || Value(b).None? || (c != PAD && Value(c).None?) || (d != PAD && Value(d).None?) then Err
    else
      var n := Join4(Value(a).value, Value(b).value,
                     if c == PAD then 0 else Value(c).value, if d == PAD then 0 else Value(d).value);
      Ok([Octet(n, 16)] + (if c != PAD then [Octet(n, 8)] else []) + (if d != PAD then [Octet(n, 0)] else []))
  }

  function DecodedBlocks(s: seq<Byte>): Result<seq<Byte>> {
    if |s| < 4 || s[0] == PAD then Ok([])
    else
      match DecodedBlock(s[0], s[1], s[2], s[3])
      case Err => Err
      case Ok(bytes) =>
        match DecodedBlocks(s[4..])
        case Err => Err
        case Ok(rest) => Ok(bytes + rest)
  }

  function Decoded(input: seq<Byte>, url: bool): Result<seq<Byte>> {
    var s := TrimmedRight(TrimmedLeft(input));
    DecodedBlocks(if url then Padded(AllStandardized(s)) else s)
  }

  /** Translates the URL-safe characters in place, then pads. */
  method Standardize(s: seq<Byte>) returns (t: seq<Byte>)
    ensures t == Padded(AllStandardized(s))
  {
    var bytes := new Byte[|s|](i requires 0 <= i < |s| => s[i]);
    for i := 0 to |s|
      invariant forall j :: 0 <= j < |s| ==> bytes[j] == if j < i then Standardized(s[j]) else s[j]
    {
      if bytes[i] == MINUS { bytes[i] := PLUS; }
      if bytes[i] == UNDERSCORE { bytes[i] := SLASH; }
    }
    assert bytes[..] == AllStandardized(s);
    t := bytes[..];
    while |t| % 4 != 0
      invariant Padded(t) == Padded(AllStandardized(s))
      decreases (4 - |t| % 4) % 4
    {
      t := t + [PAD];
    }
  }

  function Prepend(out: seq<Byte>, r: Result<seq<Byte>>): Result<seq<Byte>> {
    match r case Err => Err case Ok(rest) => Ok(out + rest)
  }

  lemma {:induction false} PrependTwice(a: seq<Byte>, b: seq<Byte>, r: Result<seq<Byte>>)
    ensures Prepend(a, Prepend(b, r)) == Prepend(a + b, r) && Prepend([], r) == r
  {
    if r.Ok? { assert a + (b + r.value) == a + b + r.value && [] + r.value == r.value; }
  }

  method Decode(input: seq<Byte>, url: bool) returns (result: Result<seq<Byte>>)
    ensures result == Decoded(input, url)
  {
    hide DecodedBlock, Padded, AllStandardized;
    var s := TrimmedRight(TrimmedLeft(input));
    if url { s := Standardize(s); }
    var out: seq<Byte> := [];
    var i := 0;
    assert s[0..] == s;
    PrependTwice([], [], DecodedBlocks(s));
    while i + 4 <= |s|
      invariant 0 <= i <= |s|
      invariant DecodedBlocks(s) == Prepend(out, DecodedBlocks(s[i..]))
    {
      var a, b, c, d := s[i], s[i + 1], s[i + 2], s[i + 3];
      ghost var rest := s[i..];
      assert rest[0] == a && rest[1] == b && rest[2] == c && rest[3] == d && rest[4..] == s[i + 4..];
      i := i + 4;
      if a == PAD {
        assert out + [] == out;
        return Ok(out);
      }
      var block := DecodedBlock(a, b, c, d);
      if block.Err? { return Err; }
      PrependTwice(out, block.value, DecodedBlocks(s[i..]));
      out := out + block.value;
    }
    assert out + [] == out;
    result := Ok(out);
  }

  // ---------------------------------------------------------------------------
  // Decoding inverts encoding
  // ---------------------------------------------------------------------------

  lemma {:induction false} ValueOfDigit(v: Byte, url: bool)
    requires v < 64
    ensures Value(Digit(v, url)) == Some(v) && Digit(v, url) != PAD && !IsBlank(Digit(v, url))
    ensures Digit(v, url) !in if url then [PLUS, SLASH] else [MINUS, UNDERSCORE]
    ensures Standardized(Digit(v, true)) == Digit(v, false)
  {
  }

  /** Three bytes survive the regrouping into four sextets and back. */
  lemma {:induction false} Regrouping(b0: Byte, b1: Byte, b2: Byte)
    ensures var n := Join3(b0, b1, b2);
      var v0, v1, v2, v3 := Sextet(n, 18), Sextet(n, 12), Sextet(n, 6), Sextet(n, 0);
      && v0 < 64 && v1 < 64 && v2 < 64 && v3 < 64
      && Join4(v0, v1, v2, v3) == n
      && Octet(n, 16) == b0 && Octet(n, 8) == b1 && Octet(n, 0) == b2
      && (b2 == 0 ==> v3 == 0) && (b1 == 0 && b2 == 0 ==> v2 == 0)
  {
  }

  lemma {:induction false} ChunkDecodes(chunk: seq<Byte>)
    requires 1 <= |chunk| <= 3
    ensures var s := EncodedChunk(chunk, false);
      |s| == 4 && s[0] != PAD && DecodedBlock(s[0], s[1], s[2], s[3]) == Ok(chunk)
  {
    hide Digit, Value, Join3, Join4, Sextet, Octet;
    var b0, b1, b2 := chunk[0], if |chunk| > 1 then chunk[1] else 0, if |chunk| > 2 then chunk[2] else 0;
    Regrouping(b0, b1, b2);
    var n := Join3(b0, b1, b2);
    ValueOfDigit(Sextet(n, 18), false);
    ValueOfDigit(Sextet(n, 12), false);
    ValueOfDigit(Sextet(n, 6), false);
    ValueOfDigit(Sextet(n, 0), false);
    var s := EncodedChunk(chunk, false);
    assert s == [Digit(Sextet(n, 18), false), Digit(Sextet(n, 12), false),
                 if |chunk| > 1 then Digit(Sextet(n, 6), false) else PAD,
                 if |chunk| > 2 then Digit(Sextet(n, 0), false) else PAD];
    assert [b0] + (if |chunk| > 1 then [b1] else []) + (if |chunk| > 2 then [b2] else []) == chunk;
  }

  lemma {:induction false} BlocksDecode(bytes: seq<Byte>)
    ensures DecodedBlocks(Encoded(bytes, false)) == Ok(bytes) && |Encoded(bytes, false)| == (|bytes| + 2) / 3 * 4
    decreases |bytes|
  {
    hide EncodedChunk, DecodedBlock;
    if bytes != [] {
      var chunk := if |bytes| <= 3 then bytes else bytes[..3];
      var rest := if |bytes| <= 3 then [] else bytes[3..];
      ChunkDecodes(chunk);
      BlocksDecode(rest);
      var s := Encoded(bytes, false);
      assert s == EncodedChunk(chunk, false) + Encoded(rest, false);
      assert s[4..] == Encoded(rest, false);
      assert chunk + rest == bytes;
    }
  }

  lemma {:induction false} PadIsNotBlank()
    ensures !IsBlank(PAD)
  {
  }

  lemma {:induction false} ChunkChars(chunk: seq<Byte>, url: bool)
    requires 1 <= |chunk| <= 3
    ensures forall i :: 0 <= i < |EncodedChunk(chunk, url)| ==> !IsBlank(EncodedChunk(chunk, url)[i])
    ensures url ==> PAD !in EncodedChunk(chunk, url) && |EncodedChunk(chunk, url)| == |chunk| + 1
    ensures forall c :: c in (if url then [PLUS, SLASH] else [MINUS, UNDERSCORE]) ==> c !in EncodedChunk(chunk, url)
  {
    hide Digit, Join3, Sextet, IsBlank, Standardized, Value;
    var b0, b1, b2 := chunk[0], if |chunk| > 1 then chunk[1] else 0, if |chunk| > 2 then chunk[2] else 0;
    Regrouping(b0, b1, b2);
    var n := Join3(b0, b1, b2);
    assert !IsBlank(PAD) by { PadIsNotBlank(); }
    ValueOfDigit(Sextet(n, 18), url);
    ValueOfDigit(Sextet(n, 12), url);
    ValueOfDigit(Sextet(n, 6), url);
    ValueOfDigit(Sextet(n, 0), url);
  }

  lemma {:induction false} ChunkStandardized(chunk: seq<Byte>)
    requires 1 <= |chunk| <= 3
    ensures |EncodedChunk(chunk, false)| == 4 && |EncodedChunk(chunk, true)| == |chunk| + 1
    ensures EncodedChunk(chunk, false) == AllStandardized(EncodedChunk(chunk, true)) + seq(3 - |chunk|, i => PAD)
  {
    hide Digit, Join3, Sextet, IsBlank, Standardized, Value;
    var b0, b1, b2 := chunk[0], if |chunk| > 1 then chunk[1] else 0, if |chunk| > 2 then chunk[2] else 0;
    Regrouping(b0, b1, b2);
    var n := Join3(b0, b1, b2);
    ValueOfDigit(Sextet(n, 18), true);
    ValueOfDigit(Sextet(n, 12), true);
    ValueOfDigit(Sextet(n, 6), true);
    ValueOfDigit(Sextet(n, 0), true);
  }

  /** No text the encoder writes holds a blank, and the URL-safe text holds no padding. */
  lemma {:induction false} EncodedChars(bytes: seq<Byte>, url: bool)
    ensures forall i :: 0 <= i < |Encoded(bytes, url)| ==> !IsBlank(Encoded(bytes, url)[i])
    ensures url ==> PAD !in Encoded(bytes, url) && PLUS !in Encoded(bytes, url) && SLASH !in Encoded(bytes, url)
    ensures !url ==> MINUS !in Encoded(bytes, url) && UNDERSCORE !in Encoded(bytes, url)
  {
    hide EncodedChunk, IsBlank;
    if bytes != [] {
      var chunk := if |bytes| <= 3 then bytes else bytes[..3];
      ChunkChars(chunk, url);
      if |bytes| > 3 { EncodedChars(bytes[3..], url); }
    }
  }

  lemma {:induction false} AllStandardizedConcat(a: seq<Byte>, b: seq<Byte>)
    ensures AllStandardized(a + b) == AllStandardized(a) + AllStandardized(b)
  {
  }

  /** Translated and padded, the URL-safe text is the standard text. */
  lemma {:induction false} UrlTextIsStandardText(bytes: seq<Byte>)
    ensures Encoded(bytes, false)
      == AllStandardized(Encoded(bytes, true)) + seq((3 - |bytes| % 3) % 3, i => PAD)
    ensures |Encoded(bytes, true)| % 4 == if |bytes| % 3 == 0 then 0 else |bytes| % 3 + 1
  {
    hide EncodedChunk, Standardized;
    if bytes != [] {
      var chunk := if |bytes| <= 3 then bytes else bytes[..3];
      ChunkStandardized(chunk);
      if |bytes| > 3 {
        UrlTextIsStandardText(bytes[3..]);
        AllStandardizedConcat(EncodedChunk(chunk, true), Encoded(bytes[3..], true));
        assert |bytes[3..]| % 3 == |bytes| % 3;
        assert AllStandardized(EncodedChunk(chunk, true)) == EncodedChunk(chunk, false);
      }
    }
  }

  lemma {:induction false} PaddedBy(s: seq<Byte>, n: nat)
    requires n < 4 && (|s| + n) % 4 == 0
    ensures Padded(s) == s + seq(n, i => PAD)
    decreases n
  {
    if n > 0 {
      PaddedBy(s + [PAD], n - 1);
      assert s + [PAD] + seq(n - 1, i => PAD) == s + seq(n, i => PAD);
    }
  }

  lemma {:induction false} NothingToTrim(s: seq<Byte>)
    requires s != [] ==> !IsBlank(s[0]) && !IsBlank(s[|s| - 1])
    ensures TrimmedRight(TrimmedLeft(s)) == s
  {
    hide IsBlank;
  }

  /** What the decoder makes of URL-safe text before it reads blocks. */
  lemma {:induction false} UrlTextIsRestored(bytes: seq<Byte>)
    ensures Padded(AllStandardized(Encoded(bytes, true))) == Encoded(bytes, false)
  {
    hide Encoded, Standardized, Padded;
    UrlTextIsStandardText(bytes);
    PaddedBy(AllStandardized(Encoded(bytes, true)), (3 - |bytes| % 3) % 3);
  }

  /** Decoding inverts encoding, for all bytes of every length, in both alphabets. */
  lemma {:induction false} EncodeThenDecode(bytes: seq<Byte>, url: bool)
    ensures Decoded(Encoded(bytes, url), url) == Ok(bytes)
  {
    hide Encoded, DecodedBlocks, AllStandardized, Padded, IsBlank, TrimmedLeft, TrimmedRight;
    EncodedChars(bytes, url);
    NothingToTrim(Encoded(bytes, url));
    BlocksDecode(bytes);
    UrlTextIsRestored(bytes);
  }

  // ---------------------------------------------------------------------------
  // The two alphabets
  // ---------------------------------------------------------------------------

  /** Every three bytes make four characters of their own, wherever they stand. */
  lemma {:induction false} EncodedIsLocal(bytes: seq<Byte>, k: nat, url: bool)
    requires 3 * k + 3 <= |bytes|
    ensures |Encoded(bytes, url)| >= 4 * k + 4
    ensures Encoded(bytes, url)[4 * k..4 * k + 4] == EncodedChunk(bytes[3 * k..3 * k + 3], url)
  {
    hide Digit, Sextet, Join3;
    if |bytes| <= 3 {
      assert bytes[0..3] == bytes;
    } else {
      var rest := bytes[3..];
      assert Encoded(bytes, url) == EncodedChunk(bytes[..3], url) + Encoded(rest, url);
      if k > 0 {
        EncodedIsLocal(rest, k - 1, url);
        assert rest[3 * (k - 1)..3 * (k - 1) + 3] == bytes[3 * k..3 * k + 3];
        assert Encoded(bytes, url)[4..][4 * (k - 1)..4 * (k - 1) + 4] == Encoded(bytes, url)[4 * k..4 * k + 4];
      }
    }
  }

  function Ascii(c: char): Byte {
    (c as int % 128) as Byte
  }

  function AsciiText(text: string): seq<Byte> {
    seq(|text|, i requires 0 <= i < |text| => Ascii(text[i]))
  }

  lemma {:induction false} FourDigits(chunk: seq<Byte>, url: bool, text: string)
    requires |chunk| == 3 && |text| == 4
    requires var n := Join3(chunk[0], chunk[1], chunk[2]);
      && Digit(Sextet(n, 18), url) == Ascii(text[0]) && Digit(Sextet(n, 12), url) == Ascii(text[1])
      && Digit(Sextet(n, 6), url) == Ascii(text[2]) && Digit(Sextet(n, 0), url) == Ascii(text[3])
    ensures EncodedChunk(chunk, url) == AsciiText(text)
  {
    hide Digit, Sextet, Join3, Ascii;
  }

  /** The corners of tables 1 and 2 of RFC 4648. */
  lemma {:induction false} CornerLetters(url: bool)
    ensures Digit(0, url) == Ascii('A') && Digit(25, url) == Ascii('Z')
    ensures Digit(26, url) == Ascii('a') && Digit(51, url) == Ascii('z')
  {
  }

  lemma {:induction false} CornerDigits(url: bool)
    ensures Digit(52, url) == Ascii('0') && Digit(61, url) == Ascii('9')
    ensures Digit(62, url) == Ascii(if url then '-' else '+') && Digit(63, url) == Ascii(if url then '_' else '/')
  {
  }

  /** Between the corners the digits follow each other as in ASCII. */
  lemma {:induction false} NextDigit(v: Byte, url: bool)
    requires v < 61 && v != 25 && v != 51
    ensures Digit(v + 1, url) == Digit(v, url) + 1
  {
  }

  /** The groups of six bits count from the left. */
  lemma {:induction false} FirstGroups(url: bool)
    ensures EncodedChunk([0x00, 0x10, 0x83], url) == AsciiText("ABCD")
  {
    FourDigits([0x00, 0x10, 0x83], url, "ABCD");
  }
}
