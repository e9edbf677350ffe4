/**
 WebSocket frames as the client writes and reads them: minimal lengths (section 5.2 of
 RFC 6455), masking (section 5.3), and a reader that takes exactly one frame off a stream.
 */
module WebSocketFrames {
  import opened Basics
  import opened ByteOrder
  import opened Utf8

  const MAX_U16 := 65535
  const U64_SIZE := 0x1_0000_0000_0000_0000

  datatype Frame = Text(text: seq<Byte>) | Binary(data: seq<Byte>) | Ping(data: seq<Byte>) | Pong | Close

  // ---------------------------------------------------------------------------
  // Writing
  // ---------------------------------------------------------------------------

  function LengthByte(n: nat): Byte
    requires n < 128
  {
    0x80 | ToByte(n)
  }

  /** The length, in the shortest of the three forms. */
  function LengthBytes(n: nat): seq<Byte>
    requires n < U64_SIZE
  {
    if n < 126 then [LengthByte(n)]
    else if n <= MAX_U16 then [LengthByte(126)] + BigEndian(n, 2)
    else [LengthByte(127)] + BigEndian(n, 8)
  }

  function Xor(p: Byte, q: Byte): Byte {
    p ^ q
  }

  function Masked(mask: seq<Byte>, payload: seq<Byte>): (b: seq<Byte>)
    requires |mask| == 4
    ensures |b| == |payload|
  {
    seq(|payload|, i requires 0 <= i < |payload| => Xor(payload[i], mask[i % 4]))
  }

  function Written(opcode: Byte, mask: seq<Byte>, payload: seq<Byte>): seq<Byte>
    requires |mask| == 4 && |payload| < U64_SIZE
  {
    [0x80 | opcode] + LengthBytes(|payload|) + mask + Masked(mask, payload)
  }

  method MaskInPlace(mask: seq<Byte>, payload: array<Byte>)
    requires |mask| == 4
    modifies payload
    ensures payload[..] == Masked(mask, old(payload[..]))
  {
    hide Xor;
    for i := 0 to payload.Length
      invariant forall j :: 0 <= j < i ==> payload[j] == Xor(old(payload[j]), mask[j % 4])
      invariant forall j :: i <= j < payload.Length ==> payload[j] == old(payload[j])
    {
      payload[i] := Xor(payload[i], mask[i % 4]);
    }
  }

  /** The mask is fresh random bytes. The length of a payload in memory fits in 64 bits. */
  method WriteFrame(opcode: Byte, mask: seq<Byte>, payload: seq<Byte>) returns (out: seq<Byte>)
    requires |mask| == 4 && |payload| < U64_SIZE
    ensures out == Written(opcode, mask, payload)
  {
    hide LengthByte, BigEndian, Masked;
    var header: seq<Byte> := [0x80 | opcode];
    var len := |payload|;
    if len < 126 {
      header := header + [LengthByte(len)];
    } else if len <= MAX_U16 {
      header := header + [LengthByte(126)] + BigEndian(len, 2);
      assert header == [0x80 | opcode] + LengthBytes(len);
    } else {
      header := header + [LengthByte(127)] + BigEndian(len, 8);
      assert header == [0x80 | opcode] + LengthBytes(len);
    }
    header := header + mask;
    var masked := new Byte[len](i requires 0 <= i < len => payload[i]);
    assert masked[..] == payload;
    MaskInPlace(mask, masked);
    out := header + masked[..];
  }

  // ---------------------------------------------------------------------------
  // Reading
  // ---------------------------------------------------------------------------

  /** `Incomplete` is an unexpected end of the stream; `Invalid` an unknown opcode or ill-formed text. */
  datatype Parsed = Complete(frame: Frame, rest: seq<Byte>) | Incomplete | Invalid

  function Interpreted(opcode: Byte, payload: seq<Byte>): Option<Frame> {
    if opcode == 0x1 then (if IsUtf8(payload) then Some(Text(payload)) else None)
    else if opcode == 0x2 then Some(Binary(payload))
    else if opcode == 0x8 then Some(Close)
    else if opcode == 0x9 then Some(Ping(payload))
    else if opcode == 0xA then Some(Pong)
    else None
  }

  /** Given the two header bytes and what follows them: the payload length, and what follows it. */
  function ParsedLength(b: Byte, s: seq<Byte>): Option<(nat, seq<Byte>)> {
    var short := b & 0x7F;
    if short == 126 then (if |s| < 2 then None else Some((FromBigEndian(s[..2]), s[2..])))
    else if short == 127 then (if |s| < 8 then None else Some((FromBigEndian(s[..8]), s[8..])))
    else Some((short as nat, s))
  }

  /** Given the length and what follows it: the unmasked payload, and what follows that. */
  function ParsedBody(masked: bool, len: nat, s: seq<Byte>): Option<(seq<Byte>, seq<Byte>)> {
    var skip := if masked then 4 else 0;
    if |s| < skip + len then None
    else
      var raw := s[skip..skip + len];
      Some((if masked then Masked(s[..4], raw) else raw, s[skip + len..]))
  }

  /** The first frame of the stream as opcode and payload, and the stream behind it. */
  function Framed(s: seq<Byte>): Option<(Byte, seq<Byte>, seq<Byte>)> {
    if |s| < 2 then None
    else
      match ParsedLength(s[1], s[2..])
      case None => None
      case Some((len, more)) =>
        match ParsedBody(s[1] & 0x80 != 0, len, more)
        case None => None
        case Some((payload, rest)) => Some((s[0] & 0x0F, payload, rest))
  }

  function Parse(s: seq<Byte>): Parsed {
    match Framed(s)
    case None => Incomplete
    case Some((opcode, payload, rest)) =>
      match Interpreted(opcode, payload)
      case None => Invalid
      case Some(frame) => Complete(frame, rest)
  }

  /** A byte stream that is read in order. */
  class ByteStream {
    var data: seq<Byte>

    constructor (data: seq<Byte>)
      ensures this.data == data
    {
      this.data := data;
    }

    /** None: the stream ended first, and what was left is lost. */
    method ReadExact(n: nat) returns (bytes: Option<seq<Byte>>)
      modifies this
      ensures bytes == if n <= |old(data)| then Some(old(data)[..n]) else None
      ensures data == if n <= |old(data)| then old(data)[n..] else []
    {
      if n > |data| {
        data := [];
        return None;
      }
      bytes := Some(data[..n]);
      data := data[n..];
    }

    method ReadFrame() returns (parsed: Parsed)
      modifies this
      ensures parsed == Parse(old(data))
      ensures parsed.Complete? ==> data == parsed.rest
    {
      hide ParsedLength, ParsedBody, Interpreted;
      ghost var s := data;
      var hdr := ReadExact(2);
      if hdr.None? { return Incomplete; }
      assert data == s[2..];
      var opcode := hdr.value[0] & 0x0F;
      var masked := hdr.value[1] & 0x80 != 0;
      var length := ReadLength(hdr.value[1]);
      if length.None? { return Incomplete; }
      var payload := ReadBody(masked, length.value);
      if payload.None? { return Incomplete; }
      var frame := Interpreted(opcode, payload.value);
      if frame.None? { return Invalid; }
      parsed := Complete(frame.value, data);
    }

    method ReadLength(b: Byte) returns (length: Option<nat>)
      modifies this
      ensures length.None? <==> ParsedLength(b, old(data)).None?
      ensures length.Some? ==> ParsedLength(b, old(data)) == Some((length.value, data))
    {
      hide FromBigEndian;
      var short := b & 0x7F;
      if short == 126 {
        var ext := ReadExact(2);
        if ext.None? { return None; }
        return Some(FromBigEndian(ext.value));
      } else if short == 127 {
        var ext := ReadExact(8);
        if ext.None? { return None; }
        return Some(FromBigEndian(ext.value));
      }
      length := Some(short as nat);
    }

    method ReadBody(masked: bool, len: nat) returns (payload: Option<seq<Byte>>)
      modifies this
      ensures payload.None? <==> ParsedBody(masked, len, old(data)).None?
      ensures payload.Some? ==> ParsedBody(masked, len, old(data)) == Some((payload.value, data))
    {
      hide Masked;
      ghost var s := data;
      var mask := [0, 0, 0, 0];
      if masked {
        var m := ReadExact(4);
        if m.None? { return None; }
        mask := m.value;
      }
      var raw: seq<Byte> := [];
      if len > 0 {
        var r := ReadExact(len);
        if r.None? { return None; }
        raw := r.value;
      }
      ghost var skip := if masked then 4 else 0;
      assert raw == s[skip..skip + len] && data == s[skip + len..];
      if masked {
        var bytes := new Byte[|raw|](i requires 0 <= i < |raw| => raw[i]);
        assert bytes[..] == raw;
        MaskInPlace(mask, bytes);
        raw := bytes[..];
      }
      payload := Some(raw);
    }
  }

  // ---------------------------------------------------------------------------
  // What is written is what is read
  // ---------------------------------------------------------------------------

  lemma {:induction false} LengthByteReadsBack(n: nat)
    requires n < 128
    ensures LengthByte(n) & 0x80 != 0 && (LengthByte(n) & 0x7F) == ToByte(n) && ToByte(n) as nat == n
  {
    var b := ToByte(n);
    ByteReadsBack(n);
    assert b < 128;
    assert (0x80 | b) & 0x7F == b && (0x80 | b) & 0x80 != 0;
  }

  /** The length survives, whatever follows, and announces a mask. */
  lemma {:induction false} LengthReadsBack(n: nat, rest: seq<Byte>)
    requires n < U64_SIZE
    ensures var b := LengthBytes(n) + rest;
      b[0] & 0x80 != 0 && ParsedLength(b[0], b[1..]) == Some((n, rest))
  {
    hide BigEndian, FromBigEndian, Pow256, LengthByte;
    PowersOf256();
    var b := LengthBytes(n) + rest;
    if n < 126 {
      LengthByteReadsBack(n);
      assert b[1..] == rest;
    } else {
      var size := if n <= MAX_U16 then 2 else 8;
      LengthByteReadsBack(126);
      LengthByteReadsBack(127);
      BigEndianReadsBack(n, size);
      assert b[1..] == BigEndian(n, size) + rest;
      assert b[1..][..size] == BigEndian(n, size) && b[1..][size..] == rest;
    }
  }

  lemma {:induction false} FromBigEndianIsBounded(b: seq<Byte>)
    ensures FromBigEndian(b) < Pow256(|b|)
  {
    if b != [] { FromBigEndianIsBounded(b[..|b| - 1]); }
  }

  /**
   No shorter form carries the length: whatever bytes the reader takes for a length, the
   writer uses no more of them (section 5.2 of RFC 6455).
   */
  lemma {:induction false} LengthIsMinimal(b: Byte, s: seq<Byte>, n: nat)
    requires ParsedLength(b, s) == Some((n, []))
    ensures n < U64_SIZE && |LengthBytes(n)| <= 1 + |s|
  {
    hide FromBigEndian, Pow256;
    PowersOf256();
    if b & 0x7F == 126 {
      assert s == s[..2];
      FromBigEndianIsBounded(s);
    } else if b & 0x7F == 127 {
      assert s == s[..8];
      FromBigEndianIsBounded(s);
    } else {
      ShortLengths(b & 0x7F);
    }
  }

  lemma {:induction false} ShortLengths(short: Byte)
    requires short <= 0x7F && short != 126 && short != 127
    ensures short as nat < 126
  {
  }

  lemma {:induction false} MaskedTwice(mask: seq<Byte>, payload: seq<Byte>)
    requires |mask| == 4
    ensures Masked(mask, Masked(mask, payload)) == payload
  {
    forall i | 0 <= i < |payload| ensures Xor(Xor(payload[i], mask[i % 4]), mask[i % 4]) == payload[i] {
      XorTwice(payload[i], mask[i % 4]);
    }
    hide Xor;
  }

  lemma {:induction false} XorTwice(p: Byte, q: Byte)
    ensures Xor(Xor(p, q), q) == p
  {
  }

  lemma {:induction false} FinAndOpcode(opcode: Byte)
    ensures (0x80 | opcode) & 0x0F == opcode & 0x0F
  {
  }

  lemma {:induction false} WrittenIsFramed(opcode: Byte, mask: seq<Byte>, payload: seq<Byte>, rest: seq<Byte>)
    requires |mask| == 4 && |payload| < U64_SIZE
    ensures Framed(Written(opcode, mask, payload) + rest) == Some((opcode & 0x0F, payload, rest))
  {
    hide LengthBytes, Masked, ParsedLength;
    var body := mask + Masked(mask, payload) + rest;
    var s := Written(opcode, mask, payload) + rest;
    FinAndOpcode(opcode);
    LengthReadsBack(|payload|, body);
    LengthIsNotEmpty(|payload|);
    assert s == [0x80 | opcode] + (LengthBytes(|payload|) + body);
    assert s[1] == (LengthBytes(|payload|) + body)[0];
    assert s[2..] == (LengthBytes(|payload|) + body)[1..];
    assert body[..4] == mask && body[4..4 + |payload|] == Masked(mask, payload) && body[4 + |payload|..] == rest;
    MaskedTwice(mask, payload);
  }

  /**
   For every opcode, mask, payload and continuation of the stream, the reader takes exactly
   the bytes that were written and gives the meaning of the opcode and the payload.
   */
  lemma {:induction false} WrittenReadsBack(opcode: Byte, mask: seq<Byte>, payload: seq<Byte>, rest: seq<Byte>)
    requires |mask| == 4 && |payload| < U64_SIZE
    ensures Parse(Written(opcode, mask, payload) + rest) ==
      match Interpreted(opcode & 0x0F, payload) case None => Invalid case Some(frame) => Complete(frame, rest)
  {
    hide Framed, Interpreted, Written;
    WrittenIsFramed(opcode, mask, payload, rest);
  }

  // ---------------------------------------------------------------------------
  // What an opcode means, and what a server sends
  // ---------------------------------------------------------------------------

  /** Once its payload is there, the opcode alone tells what a frame is, and the payload of a text is UTF-8. */
  lemma {:induction false} OpcodeTells(s: seq<Byte>, opcode: Byte, payload: seq<Byte>, rest: seq<Byte>)
    requires Framed(s) == Some((opcode, payload, rest))
    ensures opcode == 0x1 && IsUtf8(payload) ==> Parse(s) == Complete(Text(payload), rest)
    ensures opcode == 0x1 && !IsUtf8(payload) ==> Parse(s).Invalid?
    ensures opcode == 0x2 ==> Parse(s) == Complete(Binary(payload), rest)
    ensures opcode == 0x8 ==> Parse(s) == Complete(Close, rest)
    ensures opcode == 0x9 ==> Parse(s) == Complete(Ping(payload), rest)
    ensures opcode == 0xA ==> Parse(s) == Complete(Pong, rest)
    ensures opcode !in [0x1, 0x2, 0x8, 0x9, 0xA] ==> Parse(s).Invalid?
  {
    hide Framed, IsUtf8;
  }

  /** The length of a frame that is not masked, in any of the three forms. */
  predicate Announces(header: seq<Byte>, n: nat) {
    || (|header| == 1 && header[0] < 126 && header[0] as nat == n)
    || (|header| == 3 && header[0] == 126 && header[1] as nat * 256 + header[2] as nat == n)
    || (|header| == 9 && header[0] == 127 && FromBigEndian(header[1..]) == n)
  }

  /** A server's frame is not masked. Its payload is taken as it stands, whatever form its length has. */
  lemma {:induction false} UnmaskedIsFramed(head: Byte, header: seq<Byte>, payload: seq<Byte>, rest: seq<Byte>)
    requires Announces(header, |payload|)
    ensures Framed([head] + header + payload + rest) == Some((head & 0x0F, payload, rest))
  {
    hide FromBigEndian, ParsedLength;
    var s := [head] + header + payload + rest;
    var body := payload + rest;
    UnmaskedLength(header, |payload|, body);
    assert s[1] == header[0] && s[2..] == header[1..] + body;
    assert body[0..|payload|] == payload && body[|payload|..] == rest;
  }

  lemma {:induction false} UnmaskedLength(header: seq<Byte>, n: nat, body: seq<Byte>)
    requires Announces(header, n)
    ensures header[0] & 0x80 == 0 && ParsedLength(header[0], header[1..] + body) == Some((n, body))
  {
    TopBitIsClear(header[0]);
    var ext := |header| - 1;
    var s := header[1..] + body;
    assert s[..ext] == header[1..] && s[ext..] == body;
    if ext == 2 { TwoBytes(header[1..]); }
    hide FromBigEndian;
  }

  lemma {:induction false} TopBitIsClear(b: Byte)
    requires b < 128
    ensures b & 0x80 == 0 && b & 0x7F == b
  {
  }

  lemma {:induction false} TwoBytes(b: seq<Byte>)
    requires |b| == 2
    ensures FromBigEndian(b) == b[0] as nat * 256 + b[1] as nat
  {
    assert b[..1][..0] == [] && FromBigEndian(b[..1]) == b[0] as nat;
  }

  /**
   On the wire every frame is final and masked, and payload byte `i` is xored with mask byte
   `i` modulo four (sections 5.2 and 5.3 of RFC 6455).
   */
  lemma {:induction false} WrittenIsFinalAndMasked(opcode: Byte, mask: seq<Byte>, payload: seq<Byte>, i: nat)
    requires |mask| == 4 && |payload| < U64_SIZE && i < |payload|
    ensures var w := Written(opcode, mask, payload);
      var start := |w| - |payload|;
      && w[0] & 0x80 != 0 && w[1] & 0x80 != 0
      && w[start - 4..start] == mask
      && w[start + i] == payload[i] ^ mask[i % 4]
  {
    hide LengthByte, BigEndian;
    LengthReadsBack(|payload|, []);
    LengthIsNotEmpty(|payload|);
    FinIsSet(opcode);
    var w := Written(opcode, mask, payload);
    var n := |LengthBytes(|payload|)|;
    assert LengthBytes(|payload|) + [] == LengthBytes(|payload|);
    assert w[1] == LengthBytes(|payload|)[0];
    assert w[1 + n..5 + n] == mask;
    assert w[5 + n..] == Masked(mask, payload);
    assert w[5 + n + i] == w[5 + n..][i];
  }

  lemma {:induction false} FinIsSet(opcode: Byte)
    ensures (0x80 | opcode) & 0x80 != 0
  {
  }

  lemma {:induction false} LengthIsNotEmpty(n: nat)
    requires n < U64_SIZE
    ensures |LengthBytes(n)| >= 1
  {
  }

  lemma {:induction false} LaterLength(b: Byte, s: seq<Byte>, more: seq<Byte>)
    requires ParsedLength(b, s).Some?
    ensures ParsedLength(b, s + more) == Some((ParsedLength(b, s).value.0, ParsedLength(b, s).value.1 + more))
  {
    hide FromBigEndian;
    var ext := if b & 0x7F == 126 then 2 else if b & 0x7F == 127 then 8 else 0;
    assert ext <= |s|;
    assert (s + more)[..ext] == s[..ext] && (s + more)[ext..] == s[ext..] + more;
  }

  lemma {:induction false} LaterBody(masked: bool, len: nat, s: seq<Byte>, more: seq<Byte>)
    requires ParsedBody(masked, len, s).Some?
    ensures ParsedBody(masked, len, s + more)
      == Some((ParsedBody(masked, len, s).value.0, ParsedBody(masked, len, s).value.1 + more))
  {
    hide Masked;
    var skip := if masked then 4 else 0;
    assert (s + more)[skip..skip + len] == s[skip..skip + len];
    assert (s + more)[skip + len..] == s[skip + len..] + more;
    if masked { assert (s + more)[..4] == s[..4]; }
  }

  /** Bytes that arrive later never change a frame that is complete. */
  lemma {:induction false} LaterBytesDoNotMatter(s: seq<Byte>, more: seq<Byte>)
    requires Framed(s).Some?
    ensures var (opcode, payload, rest) := Framed(s).value; Framed(s + more) == Some((opcode, payload, rest + more))
  {
    hide ParsedLength, ParsedBody;
    var (len, rest) := ParsedLength(s[1], s[2..]).value;
    assert (s + more)[2..] == s[2..] + more;
    LaterLength(s[1], s[2..], more);
    LaterBody(s[1] & 0x80 != 0, len, rest, more);
  }

  /** A frame cut off anywhere is neither taken for a frame nor refused: the reader waits. */
  lemma {:induction false} CutFrameIsIncomplete(opcode: Byte, mask: seq<Byte>, payload: seq<Byte>, n: nat)
    requires |mask| == 4 && |payload| < U64_SIZE && n < |Written(opcode, mask, payload)|
    ensures Parse(Written(opcode, mask, payload)[..n]).Incomplete?
  {
    hide Framed, Written;
    var w := Written(opcode, mask, payload);
    assert w[..n] + w[n..] == w == w + [];
    WrittenIsFramed(opcode, mask, payload, []);
    if Framed(w[..n]).Some? { LaterBytesDoNotMatter(w[..n], w[n..]); }
  }

  // ---------------------------------------------------------------------------
  // A whole conversation
  // ---------------------------------------------------------------------------

  datatype Outgoing = Outgoing(opcode: Byte, mask: seq<Byte>, payload: seq<Byte>)

  predicate IsSendable(m: Outgoing) {
    |m.mask| == 4 && |m.payload| < U64_SIZE && Interpreted(m.opcode & 0x0F, m.payload).Some?
  }

  function BytesOf(m: Outgoing): seq<Byte>
    requires IsSendable(m)
  {
    Written(m.opcode, m.mask, m.payload)
  }

  function MeaningOf(m: Outgoing): Frame
    requires IsSendable(m)
  {
    Interpreted(m.opcode & 0x0F, m.payload).value
  }

  function AllWritten(messages: seq<Outgoing>): seq<Byte>
    requires forall i :: 0 <= i < |messages| ==> IsSendable(messages[i])
  {
    if messages == [] then [] else BytesOf(messages[0]) + AllWritten(messages[1..])
  }

  function Meanings(messages: seq<Outgoing>): seq<Frame>
    requires forall i :: 0 <= i < |messages| ==> IsSendable(messages[i])
  {
    if messages == [] then [] else [MeaningOf(messages[0])] + Meanings(messages[1..])
  }

  lemma {:induction false} FramedIsShorter(s: seq<Byte>)
    requires Framed(s).Some?
    ensures |Framed(s).value.2| < |s|
  {
    hide FromBigEndian, Masked;
  }

  /** All frames of a stream, up to the first that is incomplete or refused. */
  function AllParsed(s: seq<Byte>): seq<Frame>
    decreases |s|
  {
    match Parse(s)
    case Complete(frame, rest) =>
      FramedIsShorter(s);
      [frame] + AllParsed(rest)
    case _ => []
  }

  /** Any concatenation of frames reads back frame by frame. */
  lemma {:induction false} ConversationReadsBack(messages: seq<Outgoing>)
    requires forall i :: 0 <= i < |messages| ==> IsSendable(messages[i])
    ensures AllParsed(AllWritten(messages)) == Meanings(messages)
  {
    hide Parse, Written;
    if messages != [] {
      assert IsSendable(messages[0]);
      WrittenReadsBack(messages[0].opcode, messages[0].mask, messages[0].payload, AllWritten(messages[1..]));
      ConversationReadsBack(messages[1..]);
    } else {
      assert Parse([]).Incomplete? by { NothingToParse(); }
    }
  }

  lemma {:induction false} NothingToParse()
    ensures Parse([]).Incomplete?
  {
  }
}
