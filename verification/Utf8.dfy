/** Well-formed UTF-8 (section 4 of RFC 3629), and what cutting it anywhere leaves. */
module Utf8 {
  import opened Basics
  import opened ByteOrder

  predicate IsContinuation(b: Byte) {
    0x80 <= b <= 0xBF
  }

  /** The length of the well-formed character that `s` starts with; 0 when there is none. */
  function CharLength(s: seq<Byte>): nat {
    if s == [] then 0
    else if s[0] <= 0x7F then 1
    else if 0xC2 <= s[0] <= 0xDF then
      if |s| >= 2 && IsContinuation(s[1]) then 2 else 0
    else if 0xE0 <= s[0] <= 0xEF then
      if && |s| >= 3
         && (if s[0] == 0xE0 then 0xA0 <= s[1] <= 0xBF else if s[0] == 0xED
               then 0x80 <= s[1] <= 0x9F else IsContinuation(s[1]))
         && IsContinuation(s[2]) then 3 else 0
    else if 0xF0 <= s[0] <= 0xF4 then
      if && |s| >= 4
         && (if s[0] == 0xF0 then 0x90 <= s[1] <= 0xBF else if s[0] == 0xF4
               then 0x80 <= s[1] <= 0x8F else IsContinuation(s[1]))
         && IsContinuation(s[2]) && IsContinuation(s[3]) then 4 else 0
    else 0
  }

  predicate IsUtf8(s: seq<Byte>) {
    s == [] || (0 < CharLength(s) <= |s| && IsUtf8(s[CharLength(s)..]))
  }

  /** A complete character does not depend on what follows it. */
  lemma {:induction false} CharIsPrefixFree(a: seq<Byte>, b: seq<Byte>)
    requires CharLength(a) > 0
    ensures CharLength(a + b) == CharLength(a) <= |a|
  {
  }

  lemma {:induction false} ConcatIsUtf8(a: seq<Byte>, b: seq<Byte>)
    requires IsUtf8(a) && IsUtf8(b)
    ensures IsUtf8(a + b)
  {
    if a == [] {
      assert a + b == b;
    } else {
      CharIsPrefixFree(a, b);
      ConcatIsUtf8(a[CharLength(a)..], b);
      assert (a + b)[CharLength(a)..] == a[CharLength(a)..] + b;
    }
  }

  /** A well-formed prefix of a well-formed text ends on a character boundary. */
  lemma {:induction false} PrefixEndsOnBoundary(a: seq<Byte>, b: seq<Byte>)
    requires IsUtf8(a) && IsUtf8(a + b)
    ensures IsUtf8(b)
  {
    if a == [] {
      assert a + b == b;
    } else {
      CharIsPrefixFree(a, b);
      assert (a + b)[CharLength(a)..] == a[CharLength(a)..] + b;
      PrefixEndsOnBoundary(a[CharLength(a)..], b);
    }
  }

  /** Wherever a well-formed text is cut, at most three bytes of a character are left over. */
  lemma {:induction false} CutLeavesAtMostThree(s: seq<Byte>, n: nat) returns (left: nat)
    requires IsUtf8(s) && n <= |s|
    ensures left <= 3 && left <= n && IsUtf8(s[..n - left])
  {
    var c := CharLength(s);
    if n < c || n == 0 {
      left := n;
      assert s[..0] == [];
    } else {
      left := CutLeavesAtMostThree(s[c..], n - c);
      var rest := s[c..][..n - c - left];
      assert s[..n - left] == s[..c] + rest;
      assert IsUtf8(s[..c]) by { SingleChar(s); }
      ConcatIsUtf8(s[..c], rest);
    }
  }

  lemma {:induction false} SingleChar(s: seq<Byte>)
    requires CharLength(s) > 0
    ensures IsUtf8(s[..CharLength(s)])
  {
    var c := CharLength(s);
    assert CharLength(s[..c]) == c;
    assert s[..c][c..] == [];
  }

  // ---------------------------------------------------------------------------
  // Well-formed texts are the encodings of Unicode scalar values
  // ---------------------------------------------------------------------------

  /** A code point that is not a surrogate. */
  predicate IsScalar(c: nat) {
    c < 0xD800 || 0xE000 <= c < 0x11_0000
  }

  /** Section 3 of RFC 3629. */
  function Utf8Of(c: nat): (b: seq<Byte>)
    requires IsScalar(c)
    ensures 1 <= |b| <= 4
  {
    if c < 0x80 then [ToByte(c)]
    else if c < 0x800 then [ToByte(0xC0 + c / 0x40), Low(c)]
    else if c < 0x1_0000 then [ToByte(0xE0 + c / 0x1000), Low(c / 0x40), Low(c)]
    else [ToByte(0xF0 + c / 0x4_0000), Low(c / 0x1000), Low(c / 0x40), Low(c)]
  }

  /** The low six bits of a number, as a continuation byte. */
  function Low(c: nat): Byte {
    ToByte(0x80 + c % 0x40)
  }

  function TextOf(scalars: seq<nat>): seq<Byte>
    requires forall i :: 0 <= i < |scalars| ==> IsScalar(scalars[i])
  {
    if scalars == [] then [] else Utf8Of(scalars[0]) + TextOf(scalars[1..])
  }

  lemma {:induction false} ByteAsNumber(b: Byte)
    ensures ToByte(b as nat) == b
    ensures IsContinuation(b) <==> 0x80 <= b as nat < 0xC0
  {
    CastBack(b);
  }

  lemma {:induction false} LowIs(c: nat)
    ensures Low(c) as nat == 0x80 + c % 0x40 && IsContinuation(Low(c))
  {
    ByteReadsBack(0x80 + c % 0x40);
    ByteAsNumber(Low(c));
    hide ToByte;
  }

  /** The same table with the bytes as numbers. */
  lemma {:induction false} CharLengthIs(s: seq<Byte>, n: seq<nat>)
    requires |n| == |s| && forall i :: 0 <= i < |s| && i < 4 ==> s[i] as nat == n[i]
    ensures CharLength(s) ==
      if s == [] then 0
      else if n[0] < 0x80 then 1
      else if 0xC2 <= n[0] < 0xE0 then (if |s| >= 2 && 0x80 <= n[1] < 0xC0 then 2 else 0)
      else if 0xE0 <= n[0] < 0xF0 then
        (if && |s| >= 3 && 0x80 <= n[1] < 0xC0 && 0x80 <= n[2] < 0xC0
            && (n[0] == 0xE0 ==> n[1] >= 0xA0) && (n[0] == 0xED ==> n[1] < 0xA0) then 3 else 0)
      else if 0xF0 <= n[0] < 0xF5 then
        (if && |s| >= 4 && 0x80 <= n[1] < 0xC0 && 0x80 <= n[2] < 0xC0 && 0x80 <= n[3] < 0xC0
            && (n[0] == 0xF0 ==> n[1] >= 0x90) && (n[0] == 0xF4 ==> n[1] < 0x90) then 4 else 0)
      else 0
  {
  }

  /** The encoding of a scalar value is one well-formed character, whatever follows it. */
  lemma {:induction false} ScalarIsChar(c: nat, rest: seq<Byte>)
    requires IsScalar(c)
    ensures CharLength(Utf8Of(c) + rest) == |Utf8Of(c)|
  {
    hide CharLength, ToByte, Low;
    var s := Utf8Of(c) + rest;
    var n := seq(|s|, i requires 0 <= i < |s| => s[i] as nat);
    CharLengthIs(s, n);
    LowIs(c);
    if c < 0x80 {
      ByteReadsBack(c);
    } else if c < 0x800 {
      ByteReadsBack(0xC0 + c / 0x40);
    } else {
      LowIs(c / 0x40);
      LowIs(c / 0x1000);
      if c < 0x1_0000 { ThreeBytes(c, s, n); } else { FourBytes(c, s, n); }
    }
  }

  lemma {:induction false} ThreeParts(c: nat)
    requires IsScalar(c) && 0x800 <= c < 0x1_0000
    ensures var a, b := 0xE0 + c / 0x1000, 0x80 + c / 0x40 % 0x40;
      0xE0 <= a < 0xF0 && (a == 0xE0 ==> b >= 0xA0) && (a == 0xED ==> b < 0xA0)
  {
    var high := c / 0x40;
    assert c / 0x1000 == high / 0x40 && high == 0x40 * (high / 0x40) + high % 0x40;
  }

  lemma {:induction false} FourParts(c: nat)
    requires IsScalar(c) && 0x1_0000 <= c
    ensures var a, b := 0xF0 + c / 0x4_0000, 0x80 + c / 0x1000 % 0x40;
      0xF0 <= a < 0xF5 && (a == 0xF0 ==> b >= 0x90) && (a == 0xF4 ==> b < 0x90)
  {
    var top := c / 0x1000;
    assert c / 0x4_0000 == top / 0x40 && top == 0x40 * (top / 0x40) + top % 0x40;
  }

  lemma {:induction false} ThreeBytes(c: nat, s: seq<Byte>, n: seq<nat>)
    requires IsScalar(c) && 0x800 <= c < 0x1_0000 && |s| == |n| >= 3 && s[..3] == Utf8Of(c)
    requires forall i :: 0 <= i < |s| ==> s[i] as nat == n[i]
    requires Low(c) as nat == 0x80 + c % 0x40 && Low(c / 0x40) as nat == 0x80 + c / 0x40 % 0x40
    ensures CharLength(s) == 3
  {
    ThreeParts(c);
    hide ToByte, Low, CharLength;
    ByteReadsBack(0xE0 + c / 0x1000);
    assert s[0] == s[..3][0] && s[1] == s[..3][1] && s[2] == s[..3][2];
    hide Utf8Of, IsScalar;
    ThreeLong(s, n, 0xE0 + c / 0x1000, 0x80 + c / 0x40 % 0x40, 0x80 + c % 0x40);
  }

  lemma {:induction false} ThreeLong(s: seq<Byte>, n: seq<nat>, a: nat, b: nat, d: nat)
    requires |s| == |n| >= 3 && n[0] == a && n[1] == b && n[2] == d
    requires forall i :: 0 <= i < |s| ==> s[i] as nat == n[i]
    requires 0xE0 <= a < 0xF0 && 0x80 <= b < 0xC0 && 0x80 <= d < 0xC0
    requires (a == 0xE0 ==> b >= 0xA0) && (a == 0xED ==> b < 0xA0)
    ensures CharLength(s) == 3
  {
    CharLengthIs(s, n);
    hide CharLength;
  }

  lemma {:induction false} FourLong(s: seq<Byte>, n: seq<nat>, a: nat, b: nat, d: nat, e: nat)
    requires |s| == |n| >= 4 && n[0] == a && n[1] == b && n[2] == d && n[3] == e
    requires forall i :: 0 <= i < |s| ==> s[i] as nat == n[i]
    requires 0xF0 <= a < 0xF5 && 0x80 <= b < 0xC0 && 0x80 <= d < 0xC0 && 0x80 <= e < 0xC0
    requires (a == 0xF0 ==> b >= 0x90) && (a == 0xF4 ==> b < 0x90)
    ensures CharLength(s) == 4
  {
    CharLengthIs(s, n);
    hide CharLength;
  }

  lemma {:induction false} FourBytes(c: nat, s: seq<Byte>, n: seq<nat>)
    requires IsScalar(c) && 0x1_0000 <= c && |s| == |n| >= 4 && s[..4] == Utf8Of(c)
    requires forall i :: 0 <= i < |s| ==> s[i] as nat == n[i]
    requires Low(c) as nat == 0x80 + c % 0x40 && Low(c / 0x40) as nat == 0x80 + c / 0x40 % 0x40
    requires Low(c / 0x1000) as nat == 0x80 + c / 0x1000 % 0x40
    ensures CharLength(s) == 4
  {
    FourParts(c);
    hide ToByte, Low, CharLength;
    ByteReadsBack(0xF0 + c / 0x4_0000);
    assert s[0] == s[..4][0] && s[1] == s[..4][1] && s[2] == s[..4][2] && s[3] == s[..4][3];
    hide Utf8Of, IsScalar;
    FourLong(s, n, 0xF0 + c / 0x4_0000, 0x80 + c / 0x1000 % 0x40, 0x80 + c / 0x40 % 0x40, 0x80 + c % 0x40);
  }

  lemma {:induction false} TwoBytesAreScalar(a: Byte, b: Byte) returns (c: nat)
    requires 0xC2 <= a as nat < 0xE0 && 0x80 <= b as nat < 0xC0
    ensures 0x80 <= c < 0x800 && [a, b] == Utf8Of(c)
  {
    c := (a as nat - 0xC0) * 0x40 + (b as nat - 0x80);
    LowOf(b, c, a as nat - 0xC0);
    ByteAsNumber(a);
    hide ToByte, Low;
  }

  lemma {:induction false} ThreeJoined(x: nat, y: nat, z: nat)
    requires x < 0x10 && y < 0x40 && z < 0x40 && (x == 0 ==> y >= 0x20) && (x == 0xD ==> y < 0x20)
    ensures var c := (x * 0x40 + y) * 0x40 + z; IsScalar(c) && 0x800 <= c < 0x1_0000 && c / 0x1000 == x
  {
  }

  lemma {:induction false} FourJoined(x: nat, y: nat, z: nat, w: nat, top: nat, high: nat, c: nat)
    requires x < 5 && y < 0x40 && z < 0x40 && w < 0x40 && (x == 0 ==> y >= 0x10) && (x == 4 ==> y < 0x10)
    requires top == x * 0x40 + y && high == top * 0x40 + z && c == high * 0x40 + w
    ensures IsScalar(c) && 0x1_0000 <= c && c / 0x4_0000 == x && c / 0x1000 == top
  {
  }

  lemma {:induction false} ThreeBytesAreScalar(a: Byte, b: Byte, d: Byte, x: nat, y: nat, z: nat) returns (c: nat)
    requires a as nat == 0xE0 + x && b as nat == 0x80 + y && d as nat == 0x80 + z
    requires x < 0x10 && y < 0x40 && z < 0x40 && (x == 0 ==> y >= 0x20) && (x == 0xD ==> y < 0x20)
    ensures IsScalar(c) && 0x800 <= c < 0x1_0000 && [a, b, d] == Utf8Of(c)
  {
    hide ToByte, Low, Utf8Of, IsScalar;
    c := (x * 0x40 + y) * 0x40 + z;
    ThreeJoined(x, y, z);
    LowOf(b, x * 0x40 + y, x);
    LowOf(d, c, x * 0x40 + y);
    ThreeBytesOf(c, x, a, b, d);
  }

  lemma {:induction false} ThreeBytesOf(c: nat, x: nat, a: Byte, b: Byte, d: Byte)
    requires IsScalar(c) && 0x800 <= c < 0x1_0000 && c / 0x1000 == x && a as nat == 0xE0 + x
    requires Low(c / 0x40) == b && Low(c) == d
    ensures Utf8Of(c) == [a, b, d]
  {
    ByteAsNumber(a);
    hide ToByte, Low;
  }

  lemma {:induction false} FourBytesOf(c: nat, x: nat, a: Byte, b: Byte, d: Byte, e: Byte)
    requires IsScalar(c) && 0x1_0000 <= c && c / 0x4_0000 == x && a as nat == 0xF0 + x
    requires Low(c / 0x1000) == b && Low(c / 0x40) == d && Low(c) == e
    ensures Utf8Of(c) == [a, b, d, e]
  {
    ByteAsNumber(a);
    hide ToByte, Low;
  }

  lemma {:induction false} FourBytesAreScalar(a: Byte, b: Byte, d: Byte, e: Byte, x: nat, y: nat, z: nat,
        w: nat) returns (c: nat)
    requires a as nat == 0xF0 + x && b as nat == 0x80 + y && d as nat == 0x80 + z && e as nat == 0x80 + w
    requires x < 5 && y < 0x40 && z < 0x40 && w < 0x40 && (x == 0 ==> y >= 0x10) && (x == 4 ==> y < 0x10)
    ensures IsScalar(c) && c >= 0x1_0000 && [a, b, d, e] == Utf8Of(c)
  {
    hide ToByte, Low, Utf8Of, IsScalar;
    var top := x * 0x40 + y;
    var high := top * 0x40 + z;
    c := high * 0x40 + w;
    FourJoined(x, y, z, w, top, high, c);
    FourLows(b, d, e, c, high, top, x);
    FourBytesOf(c, x, a, b, d, e);
  }

  lemma {:induction false} FourLows(b: Byte, d: Byte, e: Byte, c: nat, high: nat, top: nat, x: nat)
    requires 0x80 <= b as nat < 0xC0 && 0x80 <= d as nat < 0xC0 && 0x80 <= e as nat < 0xC0
    requires c == high * 0x40 + (e as nat - 0x80) && high == top * 0x40 + (d as nat - 0x80)
    requires top == x * 0x40 + (b as nat - 0x80) && c / 0x1000 == top
    ensures Low(c / 0x1000) == b && Low(c / 0x40) == d && Low(c) == e
  {
    hide ToByte, Low;
    LowOf(b, top, x);
    LowOf(d, high, top);
    LowOf(e, c, high);
  }

  /** And every well-formed character is the encoding of a scalar value. */
  lemma {:induction false} CharIsScalar(s: seq<Byte>) returns (c: nat)
    requires CharLength(s) > 0
    ensures IsScalar(c) && CharLength(s) <= |s| && s[..CharLength(s)] == Utf8Of(c)
  {
    CharLengthIs(s, seq(|s|, i requires 0 <= i < |s| => s[i] as nat));
    hide CharLength, Utf8Of, Low;
    if CharLength(s) == 1 {
      c := s[0] as nat;
      OneByteIsScalar(s[0]);
      assert s[..1] == [s[0]];
    } else if CharLength(s) == 2 {
      c := TwoBytesAreScalar(s[0], s[1]);
      assert s[..2] == [s[0], s[1]];
    } else if CharLength(s) == 3 {
      c := ThreeBytesAreScalar(s[0], s[1], s[2], s[0] as nat - 0xE0, s[1] as nat - 0x80, s[2] as nat - 0x80);
      assert s[..3] == [s[0], s[1], s[2]];
    } else {
      c := FourBytesAreScalar(s[0], s[1], s[2], s[3],
                              s[0] as nat - 0xF0, s[1] as nat - 0x80, s[2] as nat - 0x80, s[3] as nat - 0x80);
      assert s[..4] == [s[0], s[1], s[2], s[3]];
    }
  }

  lemma {:induction false} OneByteIsScalar(b: Byte)
    requires b as nat < 0x80
    ensures Utf8Of(b as nat) == [b]
  {
    ByteAsNumber(b);
  }

  /** A continuation byte is the low six bits of the number it ends. */
  lemma {:induction false} LowOf(b: Byte, c: nat, high: nat)
    requires 0x80 <= b as nat < 0xC0 && c == high * 0x40 + (b as nat - 0x80)
    ensures c / 0x40 == high && Low(c) == b
  {
    ByteAsNumber(b);
    assert c % 0x40 == b as nat - 0x80;
    hide ToByte;
  }

  /** A text is well-formed exactly when it encodes a sequence of scalar values. */
  lemma {:induction false} WellFormedExactlyWhen(s: seq<Byte>)
    ensures IsUtf8(s) <==>
      exists scalars: seq<nat> :: (forall i :: 0 <= i < |scalars| ==> IsScalar(scalars[i])) && s == TextOf(scalars)
  {
    if IsUtf8(s) {
      var scalars := ScalarsOf(s);
    }
    forall scalars: seq<nat> | (forall i :: 0 <= i < |scalars| ==> IsScalar(scalars[i])) && s == TextOf(scalars)
      ensures IsUtf8(s)
    {
      TextIsUtf8(scalars);
    }
    hide IsUtf8, TextOf;
  }

  lemma {:induction false} ScalarsOf(s: seq<Byte>) returns (scalars: seq<nat>)
    requires IsUtf8(s)
    ensures forall i :: 0 <= i < |scalars| ==> IsScalar(scalars[i])
    ensures s == TextOf(scalars)
  {
    hide CharLength, Utf8Of, IsScalar;
    scalars := [];
    if s != [] {
      var c := CharIsScalar(s);
      var rest := ScalarsOf(s[CharLength(s)..]);
      scalars := [c] + rest;
      assert scalars[1..] == rest;
    }
  }

  lemma {:induction false} TextIsUtf8(scalars: seq<nat>)
    requires forall i :: 0 <= i < |scalars| ==> IsScalar(scalars[i])
    ensures IsUtf8(TextOf(scalars))
  {
    hide CharLength, Utf8Of, IsScalar;
    if scalars != [] {
      TextIsUtf8(scalars[1..]);
      ScalarIsChar(scalars[0], TextOf(scalars[1..]));
      assert TextOf(scalars)[|Utf8Of(scalars[0])|..] == TextOf(scalars[1..]);
    }
  }
}
