/** Numbers as fixed-size runs of bytes, in both orders. */
module ByteOrder {
  import opened Basics

  function ToByte(n: nat): Byte
    requires n < 256
  {
    n as Byte
  }

  lemma {:induction false} Successor(b: Byte)
    ensures b as nat < 255 ==> (b + 1) as nat == b as nat + 1
  {
    assert b as nat < 255 ==> b < 255;
  }

  lemma {:induction false} CastBack(b: Byte)
    ensures (b as nat) as Byte == b
  {
  }

  /** Every number below 256 is some byte, counting up from zero. */
  lemma {:induction false} ByteOf(n: nat) returns (b: Byte)
    requires n < 256
    ensures b as nat == n
  {
    if n == 0 {
      b := 0;
    } else {
      b := ByteOf(n - 1);
      Successor(b);
      b := b + 1;
    }
  }

  lemma {:induction false} ByteReadsBack(n: nat)
    requires n < 256
    ensures ToByte(n) as nat == n
  {
    var b := ByteOf(n);
    CastBack(b);
  }

  function Pow256(k: nat): nat {
    if k == 0 then 1 else 256 * Pow256(k - 1)
  }

  function BigEndian(n: nat, size: nat): (b: seq<Byte>)
    ensures |b| == size
  {
    if size == 0 then [] else BigEndian(n / 256, size - 1) + [ToByte(n % 256)]
  }

  function FromBigEndian(b: seq<Byte>): nat {
    if b == [] then 0 else FromBigEndian(b[..|b| - 1]) * 256 + b[|b| - 1] as nat
  }

  lemma {:induction false} BigEndianReadsBack(n: nat, size: nat)
    requires n < Pow256(size)
    ensures FromBigEndian(BigEndian(n, size)) == n
  {
    hide ToByte;
    if size > 0 {
      BigEndianReadsBack(n / 256, size - 1);
      var b := BigEndian(n, size);
      assert b[..size - 1] == BigEndian(n / 256, size - 1);
      ByteReadsBack(n % 256);
    }
  }

  lemma {:induction false} PowIsPositive(k: nat)
    ensures Pow256(k) > 0
  {
    if k > 0 { PowIsPositive(k - 1); }
  }

  lemma {:induction false} DividedTwice(n: nat, k: nat)
    ensures Pow256(k) > 0 && Pow256(k + 1) > 0 && n / 256 / Pow256(k) == n / Pow256(k + 1)
  {
    PowIsPositive(k);
    var d := Pow256(k);
    var q, r := n / 256 / d, n / 256 % d;
    assert n == 256 * d * q + (256 * r + n % 256);
    assert 256 * r + n % 256 < 256 * d;
    QuotientIs(n, 256 * d, q, 256 * r + n % 256);
  }

  lemma {:induction false} QuotientIs(n: nat, d: nat, q: nat, r: nat)
    requires n == d * q + r && r < d
    ensures n / d == q
  {
    var m: int := q - n / d;
    assert d * m == n % d - r;
    assert m >= 1 ==> d * m >= d;
    assert m <= -1 ==> d * m + d <= 0;
  }

  /** In network order byte `i` of `size` stands for the power of 256 by the bytes behind it. */
  lemma {:induction false} BigEndianAt(n: nat, size: nat, i: nat)
    requires i < size
    ensures Pow256(size - 1 - i) > 0 && BigEndian(n, size)[i] as nat == n / Pow256(size - 1 - i) % 256
  {
    hide ToByte;
    if i == size - 1 {
      ByteReadsBack(n % 256);
    } else {
      BigEndianAt(n / 256, size - 1, i);
      DividedTwice(n, size - 2 - i);
    }
  }

  function LittleEndian(n: nat, size: nat): (b: seq<Byte>)
    ensures |b| == size
  {
    if size == 0 then [] else [ToByte(n % 256)] + LittleEndian(n / 256, size - 1)
  }

  function FromLittleEndian(b: seq<Byte>): nat {
    if b == [] then 0 else b[0] as nat + 256 * FromLittleEndian(b[1..])
  }

  lemma {:induction false} LittleEndianReadsBack(n: nat, size: nat)
    requires n < Pow256(size)
    ensures FromLittleEndian(LittleEndian(n, size)) == n
  {
    hide ToByte;
    if size > 0 {
      LittleEndianReadsBack(n / 256, size - 1);
      var b := LittleEndian(n, size);
      assert b[1..] == LittleEndian(n / 256, size - 1);
      ByteReadsBack(n % 256);
    }
  }

  /** In little-endian order it stands for the power of 256 by the bytes before it. */
  lemma {:induction false} LittleEndianAt(n: nat, size: nat, i: nat)
    requires i < size
    ensures Pow256(i) > 0 && LittleEndian(n, size)[i] as nat == n / Pow256(i) % 256
  {
    hide ToByte;
    if i == 0 {
      ByteReadsBack(n % 256);
    } else {
      LittleEndianAt(n / 256, size - 1, i - 1);
      DividedTwice(n, i - 1);
    }
  }

  lemma {:induction false} PowersOf256()
    ensures Pow256(2) == 0x1_0000 && Pow256(4) == 0x1_0000_0000 && Pow256(8) == 0x1_0000_0000_0000_0000
  {
    assert Pow256(3) == 256 * Pow256(2);
    assert Pow256(4) == 256 * Pow256(3);
    assert Pow256(5) == 256 * Pow256(4);
    assert Pow256(6) == 256 * Pow256(5);
    assert Pow256(7) == 256 * Pow256(6);
  }
}
