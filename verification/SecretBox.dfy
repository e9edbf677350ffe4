/**
 Sealing and opening with a shared key: 32 zero bytes and the message go through the
 stream, the first 32 bytes of output key a one-time authenticator, and its tag takes
 their place in front of the ciphertext. The authenticator is an arbitrary function.
 */
module SecretBox {
  import opened Basics
  import opened Salsa20

  type Tag = s: seq<Byte> | |s| == 16 witness [0, 0, 0, 0, 0, 0, 0, 0, 0, 0, 0, 0, 0, 0, 0, 0]

  /** Poly1305 under a one-time key. */
  type Authenticator = (seq<Byte>, seq<Byte>) -> Tag

  function Zeros(n: nat): seq<Byte> {
    seq(n, i => 0)
  }

  function Sealed(mac: Authenticator, key: seq<Byte>, nonce: seq<Byte>, message: seq<Byte>): (boxed: seq<Byte>)
    requires |key| == 32 && |nonce| == 24
    ensures |boxed| == 16 + |message|
  {
    var c := Xored(key, nonce, Zeros(32) + message);
    mac(c[..32], c[32..]) + c[32..]
  }

  function Opened(mac: Authenticator, key: seq<Byte>, nonce: seq<Byte>, boxed: seq<Byte>): Option<seq<Byte>>
    requires |key| == 32 && |nonce| == 24
  {
    if |boxed| < 16 then None
    else
      var c := Zeros(16) + boxed;
      if mac(Xored(key, nonce, Zeros(32)), c[32..]) != c[16..32] then None
      else Some(Xored(key, nonce, c)[32..])
  }

  method Seal(mac: Authenticator, message: seq<Byte>, nonce: seq<Byte>, key: seq<Byte>) returns (boxed: seq<Byte>)
    requires |key| == 32 && |nonce| == 24
    ensures boxed == Sealed(mac, key, nonce, message)
  {
    hide Xored;
    var m := new Byte[32 + |message|](i => 0);
    for i := 0 to |message|
      invariant forall j :: 0 <= j < m.Length ==> m[j] == if 32 <= j < 32 + i then message[j - 32] else 0
    {
      m[32 + i] := message[i];
    }
    assert m[..] == Zeros(32) + message;
    var c := XSalsaXor(key, nonce, m[..]);
    ghost var stream := c[..];
    var tag: seq<Byte> := mac(c[..32], c[32..]);
    for i := 0 to 16
      invariant forall j :: 0 <= j < c.Length ==> c[j] == if 16 <= j < 16 + i then tag[j - 16] else stream[j]
    {
      c[16 + i] := tag[i];
    }
    for i := 0 to 16
      invariant forall j :: 16 <= j < c.Length ==> c[j] == if j < 32 then tag[j - 16] else stream[j]
    {
      c[i] := 0;
    }
    boxed := c[16..];
    assert boxed == tag + stream[32..];
  }

  method Open(mac: Authenticator, boxed: seq<Byte>, nonce: seq<Byte>,
        key: seq<Byte>) returns (message: Option<seq<Byte>>)
    requires |key| == 32 && |nonce| == 24
    ensures message == Opened(mac, key, nonce, boxed)
  {
    hide Xored;
    if |boxed| < 16 { return None; }
    var c := new Byte[16 + |boxed|](i => 0);
    for i := 0 to |boxed|
      invariant forall j :: 0 <= j < c.Length ==> c[j] == if 16 <= j < 16 + i then boxed[j - 16] else 0
    {
      c[16 + i] := boxed[i];
    }
    assert c[..] == Zeros(16) + boxed;
    var polyKey := XSalsaXor(key, nonce, Zeros(32));
    if mac(polyKey[..], c[..][32..]) != c[..][16..32] { return None; }
    var plain := XSalsaXor(key, nonce, c[..]);
    message := Some(plain[..][32..]);
  }

  function FirstBytes(key: seq<Byte>, nonce: seq<Byte>): seq<Byte>
    requires |key| == 32 && |nonce| == 24
  {
    seq(32, i requires 0 <= i < 32 => Keystream(key, nonce, i))
  }

  /**
   The box, byte by byte: the ciphertext meets the keystream from byte 32 on, and the tag
   authenticates it under the first 32 bytes of the keystream.
   */
  lemma {:induction false} BoxIs(mac: Authenticator, key: seq<Byte>, nonce: seq<Byte>, message: seq<Byte>)
    requires |key| == 32 && |nonce| == 24
    ensures var boxed := Sealed(mac, key, nonce, message);
      && (forall i :: 0 <= i < |message| ==> boxed[16 + i] == Xor(message[i], Keystream(key, nonce, 32 + i)))
      && boxed[..16] == mac(FirstBytes(key, nonce), boxed[16..])
  {
    hide Keystream;
    var first := FirstBytes(key, nonce);
    var c := Xored(key, nonce, Zeros(32) + message);
    assert c[..32] == first by {
      forall i | 0 <= i < 32 ensures c[i] == Keystream(key, nonce, i) { XorZero(Keystream(key, nonce, i)); }
    }
    hide Xor;
    var tag: seq<Byte> := mac(c[..32], c[32..]);
    assert (tag + c[32..])[16..] == c[32..];
  }

  lemma {:induction false} XorZero(q: Byte)
    ensures Xor(0, q) == q
  {
  }

  // ---------------------------------------------------------------------------
  // Sealing and opening are inverse to each other
  // ---------------------------------------------------------------------------

  /** From byte 32 on, the stream does not care what came before. */
  lemma {:induction false} SuffixOnly(key: seq<Byte>, nonce: seq<Byte>, a: seq<Byte>, b: seq<Byte>)
    requires |key| == 32 && |nonce| == 24 && |a| == |b| >= 32 && a[32..] == b[32..]
    ensures Xored(key, nonce, a)[32..] == Xored(key, nonce, b)[32..]
  {
    hide Keystream, Xor;
    forall i | 32 <= i < |a| ensures a[i] == b[i] { assert a[32..][i - 32] == b[32..][i - 32]; }
  }

  lemma {:induction false} XoredSuffixTwice(key: seq<Byte>, nonce: seq<Byte>, head: seq<Byte>, m: seq<Byte>)
    requires |key| == 32 && |nonce| == 24 && |head| == 32 && |m| >= 32
    ensures Xored(key, nonce, head + Xored(key, nonce, m)[32..])[32..] == m[32..]
  {
    hide Xored;
    var c := Xored(key, nonce, m);
    assert (head + c[32..])[32..] == c[32..];
    SuffixOnly(key, nonce, head + c[32..], c);
    XoredTwice(key, nonce, m);
  }

  lemma {:induction false} ZerosPrefix(key: seq<Byte>, nonce: seq<Byte>, message: seq<Byte>)
    requires |key| == 32 && |nonce| == 24
    ensures Xored(key, nonce, Zeros(32) + message)[..32] == Xored(key, nonce, Zeros(32))
  {
    XoredPrefix(key, nonce, Zeros(32) + message, 32);
    assert (Zeros(32) + message)[..32] == Zeros(32);
  }

  /** A sealed message opens to itself, under any authenticator. */
  lemma {:induction false} SealThenOpen(mac: Authenticator, key: seq<Byte>, nonce: seq<Byte>, message: seq<Byte>)
    requires |key| == 32 && |nonce| == 24
    ensures Opened(mac, key, nonce, Sealed(mac, key, nonce, message)) == Some(message)
  {
    hide Xored;
    var m := Zeros(32) + message;
    var stream := Xored(key, nonce, m);
    var tag: seq<Byte> := mac(stream[..32], stream[32..]);
    var c := Zeros(16) + Sealed(mac, key, nonce, message);
    ZerosPrefix(key, nonce, message);
    assert c[16..32] == tag && c[32..] == stream[32..];
    assert c == (Zeros(16) + tag) + stream[32..];
    XoredSuffixTwice(key, nonce, Zeros(16) + tag, m);
    assert m[32..] == message;
  }

  /** Whatever box is accepted is the sealing of the message it opens to. */
  lemma {:induction false} OpenThenSeal(mac: Authenticator, key: seq<Byte>, nonce: seq<Byte>, boxed: seq<Byte>)
    requires |key| == 32 && |nonce| == 24 && Opened(mac, key, nonce, boxed).Some?
    ensures Sealed(mac, key, nonce, Opened(mac, key, nonce, boxed).value) == boxed
  {
    hide Xored;
    var c := Zeros(16) + boxed;
    var message := Opened(mac, key, nonce, boxed).value;
    var m := Zeros(32) + message;
    assert m == Zeros(32) + Xored(key, nonce, c)[32..];
    XoredSuffixTwice(key, nonce, Zeros(32), c);
    ZerosPrefix(key, nonce, message);
    assert boxed == c[16..32] + c[32..];
  }

  /** A box opens to a message exactly when it is the sealing of that message. */
  lemma {:induction false} OpensIffSealed(mac: Authenticator, key: seq<Byte>, nonce: seq<Byte>, boxed: seq<Byte>,
        message: seq<Byte>)
    requires |key| == 32 && |nonce| == 24
    ensures Opened(mac, key, nonce, boxed) == Some(message) <==> boxed == Sealed(mac, key, nonce, message)
  {
    SealThenOpen(mac, key, nonce, message);
    if Opened(mac, key, nonce, boxed) == Some(message) { OpenThenSeal(mac, key, nonce, boxed); }
  }
}
