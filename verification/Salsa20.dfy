/** The Salsa20 core, its 64-byte blocks, and the XSalsa20 stream, over words and bytes in place. */
module Salsa20 {
  import opened Basics

  type Word = bv32

  /** The program counts blocks in 64 bits. */
  type BlockCounter = n: nat | n < 0x1_0000_0000_0000_0000

  /** "expand 32-byte k", read as four little-endian words. */
  const SIGMA: seq<Word> := [0x61707865, 0x3320646E, 0x79622D32, 0x6B206574]

  // ---------------------------------------------------------------------------
  // The core permutation
  // ---------------------------------------------------------------------------

  predicate FourDistinct(a: nat, b: nat, c: nat, d: nat) {
    a < 16 && b < 16 && c < 16 && d < 16 && a != b && a != c && a != d && b != c && b != d && c != d
  }

  function Mix(target: Word, p: Word, q: Word, n: nat): Word
    requires n < 32
  {
    target ^ (p + q).RotateLeft(n)
  }

  lemma {:induction false} MixTwice(target: Word, p: Word, q: Word, n: nat)
    requires n < 32
    ensures Mix(Mix(target, p, q, n), p, q, n) == target
  {
    var r := (p + q).RotateLeft(n);
    assert (target ^ r) ^ r == target;
  }

  /** One word takes in two others. */
  function Step(x: seq<Word>, t: nat, p: nat, q: nat, n: nat): (y: seq<Word>)
    requires |x| == 16 && t < 16 && p < 16 && q < 16 && n < 32
    ensures |y| == 16
  {
    x[t := Mix(x[t], x[p], x[q], n)]
  }

  lemma {:induction false} StepTwice(x: seq<Word>, t: nat, p: nat, q: nat, n: nat)
    requires |x| == 16 && t < 16 && p < 16 && q < 16 && t != p && t != q && n < 32
    ensures Step(Step(x, t, p, q, n), t, p, q, n) == x
  {
    hide Mix;
    MixTwice(x[t], x[p], x[q], n);
  }

  function Quarter(x: seq<Word>, a: nat, b: nat, c: nat, d: nat): (y: seq<Word>)
    requires |x| == 16 && FourDistinct(a, b, c, d)
    ensures |y| == 16
  {
    Step(Step(Step(Step(x, b, a, d, 7), c, b, a, 9), d, c, b, 13), a, d, c, 18)
  }

  function QuarterBack(y: seq<Word>, a: nat, b: nat, c: nat, d: nat): (x: seq<Word>)
    requires |y| == 16 && FourDistinct(a, b, c, d)
    ensures |x| == 16
  {
    Step(Step(Step(Step(y, a, d, c, 18), d, c, b, 13), c, b, a, 9), b, a, d, 7)
  }

  /** A quarter round loses nothing. */
  lemma {:induction false} QuarterInverts(x: seq<Word>, a: nat, b: nat, c: nat, d: nat)
    requires |x| == 16 && FourDistinct(a, b, c, d)
    ensures QuarterBack(Quarter(x, a, b, c, d), a, b, c, d) == x
  {
    hide Step;
    var x1 := Step(x, b, a, d, 7);
    var x2 := Step(x1, c, b, a, 9);
    var x3 := Step(x2, d, c, b, 13);
    StepTwice(x3, a, d, c, 18);
    StepTwice(x2, d, c, b, 13);
    StepTwice(x1, c, b, a, 9);
    StepTwice(x, b, a, d, 7);
  }

  function ColumnRound(x: seq<Word>): (y: seq<Word>)
    requires |x| == 16
    ensures |y| == 16
  {
    Quarter(Quarter(Quarter(Quarter(x, 0, 4, 8, 12), 5, 9, 13, 1), 10, 14, 2, 6), 15, 3, 7, 11)
  }

  function RowRound(x: seq<Word>): (y: seq<Word>)
    requires |x| == 16
    ensures |y| == 16
  {
    Quarter(Quarter(Quarter(Quarter(x, 0, 1, 2, 3), 5, 6, 7, 4), 10, 11, 8, 9), 15, 12, 13, 14)
  }

  function DoubleRound(x: seq<Word>): (y: seq<Word>)
    requires |x| == 16
    ensures |y| == 16
  {
    RowRound(ColumnRound(x))
  }

  /** Where word `i` of the four-by-four square stands in the transposed square. */
  function Flip(i: nat): (j: nat)
    requires i < 16
    ensures j < 16
  {
    4 * (i % 4) + i / 4
  }

  function Transposed(x: seq<Word>): (y: seq<Word>)
    requires |x| == 16
    ensures |y| == 16
  {
    seq(16, i requires 0 <= i < 16 => x[Flip(i)])
  }

  lemma {:induction false} FlipOf(row: nat, column: nat)
    requires row < 4 && column < 4
    ensures Flip(4 * row + column) == 4 * column + row
  {
    assert (4 * row + column) / 4 == row && (4 * row + column) % 4 == column;
  }

  lemma {:induction false} FlipTwice(i: nat, j: nat)
    requires i < 16 && j < 16
    ensures Flip(Flip(i)) == i && (Flip(i) == Flip(j) <==> i == j)
  {
    hide Flip;
    FlipOf(i / 4, i % 4);
    FlipOf(i % 4, i / 4);
    FlipOf(j / 4, j % 4);
    FlipOf(j % 4, j / 4);
  }

  lemma {:induction false} StepTransposed(x: seq<Word>, t: nat, p: nat, q: nat, n: nat)
    requires |x| == 16 && t < 16 && p < 16 && q < 16 && n < 32
    ensures Step(Transposed(x), Flip(t), Flip(p), Flip(q), n) == Transposed(Step(x, t, p, q, n))
  {
    hide Mix, Flip;
    FlipTwice(t, t);
    FlipTwice(p, p);
    FlipTwice(q, q);
    var y, z := Step(Transposed(x), Flip(t), Flip(p), Flip(q), n), Transposed(Step(x, t, p, q, n));
    forall i | 0 <= i < 16 ensures y[i] == z[i] {
      FlipTwice(i, t);
      FlipTwice(Flip(i), t);
    }
  }

  lemma {:induction false} QuarterTransposed(x: seq<Word>, a: nat, b: nat, c: nat, d: nat)
    requires |x| == 16 && FourDistinct(a, b, c, d) && FourDistinct(Flip(a), Flip(b), Flip(c), Flip(d))
    ensures Quarter(Transposed(x), Flip(a), Flip(b), Flip(c), Flip(d)) == Transposed(Quarter(x, a, b, c, d))
  {
    hide Step, Flip, Transposed;
    var x1 := Step(x, b, a, d, 7);
    var x2 := Step(x1, c, b, a, 9);
    var x3 := Step(x2, d, c, b, 13);
    StepTransposed(x, b, a, d, 7);
    StepTransposed(x1, c, b, a, 9);
    StepTransposed(x2, d, c, b, 13);
    StepTransposed(x3, a, d, c, 18);
  }

  /** The column round is the row round of the transposed square, index by index. */
  lemma {:induction false} ColumnsAreRowsTransposed(x: seq<Word>)
    requires |x| == 16
    ensures RowRound(Transposed(x)) == Transposed(ColumnRound(x))
  {
    hide Quarter, Transposed;
    var x1 := Quarter(x, 0, 4, 8, 12);
    var x2 := Quarter(x1, 5, 9, 13, 1);
    var x3 := Quarter(x2, 10, 14, 2, 6);
    QuarterTransposed(x, 0, 4, 8, 12);
    QuarterTransposed(x1, 5, 9, 13, 1);
    QuarterTransposed(x2, 10, 14, 2, 6);
    QuarterTransposed(x3, 15, 3, 7, 11);
  }

  /** A quarter round on four words, as section 3 of the Salsa20 specification evaluates it. */
  lemma {:induction false} QuarterOfOne(x: seq<Word>)
    requires |x| == 16 && x[0] == 1 && x[1] == x[2] == x[3] == 0
    ensures Quarter(x, 0, 1, 2, 3) == [0x0800_8145, 0x80, 0x0001_0200, 0x2050_0000] + x[4..]
  {
    assert Mix(0, 1, 0, 7) == 0x80;
    assert Mix(0, 0x80, 1, 9) == 0x0001_0200;
    assert Mix(0, 0x0001_0200, 0x80, 13) == 0x2050_0000;
    assert Mix(1, 0x2050_0000, 0x0001_0200, 18) == 0x0800_8145;
    hide Mix;
  }

  /** The quarter round on four words, equation by equation, as in section 3 of the Salsa20 specification. */
  predicate QuarterIs(y0: Word, y1: Word, y2: Word, y3: Word, z0: Word, z1: Word, z2: Word, z3: Word) {
    && z1 == Mix(y1, y0, y3, 7)
    && z2 == Mix(y2, z1, y0, 9)
    && z3 == Mix(y3, z2, z1, 13)
    && z0 == Mix(y0, z3, z2, 18)
  }

  lemma {:induction false} QuarterAt(x: seq<Word>, a: nat, b: nat, c: nat, d: nat,
        z0: Word, z1: Word, z2: Word, z3: Word)
    requires |x| == 16 && FourDistinct(a, b, c, d)
    requires QuarterIs(x[a], x[b], x[c], x[d], z0, z1, z2, z3)
    ensures Quarter(x, a, b, c, d) == x[b := z1][c := z2][d := z3][a := z0]
  {
    hide Mix;
  }

  lemma {:induction false} Row0Is(x: seq<Word>, z: seq<Word>)
    requires |x| == |z| == 16 && QuarterIs(x[0], x[1], x[2], x[3], z[0], z[1], z[2], z[3])
    ensures Quarter(x, 0, 1, 2, 3) == x[..0] + z[0..4] + x[4..]
  {
    hide QuarterIs, Quarter;
    QuarterAt(x, 0, 1, 2, 3, z[0], z[1], z[2], z[3]);
  }

  lemma {:induction false} Row1Is(x: seq<Word>, z: seq<Word>)
    requires |x| == |z| == 16 && QuarterIs(x[5], x[6], x[7], x[4], z[5], z[6], z[7], z[4])
    ensures Quarter(x, 5, 6, 7, 4) == x[..4] + z[4..8] + x[8..]
  {
    hide QuarterIs, Quarter;
    QuarterAt(x, 5, 6, 7, 4, z[5], z[6], z[7], z[4]);
  }

  lemma {:induction false} Row2Is(x: seq<Word>, z: seq<Word>)
    requires |x| == |z| == 16 && QuarterIs(x[10], x[11], x[8], x[9], z[10], z[11], z[8], z[9])
    ensures Quarter(x, 10, 11, 8, 9) == x[..8] + z[8..12] + x[12..]
  {
    hide QuarterIs, Quarter;
    QuarterAt(x, 10, 11, 8, 9, z[10], z[11], z[8], z[9]);
  }

  lemma {:induction false} Row3Is(x: seq<Word>, z: seq<Word>)
    requires |x| == |z| == 16 && QuarterIs(x[15], x[12], x[13], x[14], z[15], z[12], z[13], z[14])
    ensures Quarter(x, 15, 12, 13, 14) == x[..12] + z[12..16] + x[16..]
  {
    hide QuarterIs, Quarter;
    QuarterAt(x, 15, 12, 13, 14, z[15], z[12], z[13], z[14]);
  }

  /** Every row goes through the quarter round, starting at the diagonal. */
  lemma {:induction false} RowsAre(x: seq<Word>, z: seq<Word>)
    requires |x| == |z| == 16
    requires QuarterIs(x[0], x[1], x[2], x[3], z[0], z[1], z[2], z[3])
    requires QuarterIs(x[5], x[6], x[7], x[4], z[5], z[6], z[7], z[4])
    requires QuarterIs(x[10], x[11], x[8], x[9], z[10], z[11], z[8], z[9])
    requires QuarterIs(x[15], x[12], x[13], x[14], z[15], z[12], z[13], z[14])
    ensures RowRound(x) == z
  {
    hide QuarterIs, Quarter;
    var x1 := z[..4] + x[4..];
    var x2 := z[..8] + x[8..];
    var x3 := z[..12] + x[12..];
    Row0Is(x, z);
    Row1Is(x1, z);
    Row2Is(x2, z);
    Row3Is(x3, z);
    assert x[..0] + z[0..4] + x[4..] == x1;
    assert x1[..4] + z[4..8] + x1[8..] == x2;
    assert x2[..8] + z[8..12] + x2[12..] == x3;
    assert x3[..12] + z[12..16] + x3[16..] == z;
  }

  /** And so does every column. */
  lemma {:induction false} ColumnsAre(x: seq<Word>, z: seq<Word>)
    requires |x| == |z| == 16
    requires QuarterIs(x[0], x[4], x[8], x[12], z[0], z[4], z[8], z[12])
    requires QuarterIs(x[5], x[9], x[13], x[1], z[5], z[9], z[13], z[1])
    requires QuarterIs(x[10], x[14], x[2], x[6], z[10], z[14], z[2], z[6])
    requires QuarterIs(x[15], x[3], x[7], x[11], z[15], z[3], z[7], z[11])
    ensures ColumnRound(x) == z
  {
    hide QuarterIs, RowRound, ColumnRound;
    ColumnsAreRowsTransposed(x);
    RowsAre(Transposed(x), Transposed(z));
    hide Flip;
    assert forall i :: 0 <= i < 16 ==> Transposed(Transposed(z))[i] == z[i] by {
      forall i | 0 <= i < 16 ensures Flip(Flip(i)) == i { FlipTwice(i, i); }
    }
    assert forall i :: 0 <= i < 16 ==> Transposed(Transposed(ColumnRound(x)))[i] == ColumnRound(x)[i] by {
      forall i | 0 <= i < 16 ensures Flip(Flip(i)) == i { FlipTwice(i, i); }
    }
  }

  function Rounds(x: seq<Word>, n: nat): (y: seq<Word>)
    requires |x| == 16
    ensures |y| == 16
  {
    if n == 0 then x else DoubleRound(Rounds(x, n - 1))
  }

  function RowsBack(y: seq<Word>): (c: seq<Word>)
    requires |y| == 16
    ensures |c| == 16
  {
    QuarterBack(QuarterBack(QuarterBack(QuarterBack(y, 15, 12, 13, 14), 10, 11, 8, 9), 5, 6, 7, 4), 0, 1, 2, 3)
  }

  function DoubleRoundBack(y: seq<Word>): (x: seq<Word>)
    requires |y| == 16
    ensures |x| == 16
  {
    QuarterBack(QuarterBack(QuarterBack(QuarterBack(RowsBack(y), 15, 3, 7, 11), 10, 14, 2, 6),
                5, 9, 13, 1), 0, 4, 8, 12)
  }

  lemma {:induction false} DoubleRoundInverts(x: seq<Word>)
    requires |x| == 16
    ensures DoubleRoundBack(DoubleRound(x)) == x
  {
    hide Quarter, QuarterBack;
    var q1 := Quarter(x, 0, 4, 8, 12);
    var q2 := Quarter(q1, 5, 9, 13, 1);
    var q3 := Quarter(q2, 10, 14, 2, 6);
    var c := Quarter(q3, 15, 3, 7, 11);
    assert c == ColumnRound(x);
    var r1 := Quarter(c, 0, 1, 2, 3);
    var r2 := Quarter(r1, 5, 6, 7, 4);
    var r3 := Quarter(r2, 10, 11, 8, 9);
    QuarterInverts(r3, 15, 12, 13, 14);
    QuarterInverts(r2, 10, 11, 8, 9);
    QuarterInverts(r1, 5, 6, 7, 4);
    QuarterInverts(c, 0, 1, 2, 3);
    assert RowsBack(DoubleRound(x)) == c;
    QuarterInverts(q3, 15, 3, 7, 11);
    QuarterInverts(q2, 10, 14, 2, 6);
    QuarterInverts(q1, 5, 9, 13, 1);
    QuarterInverts(x, 0, 4, 8, 12);
  }

  /** The rounds are a permutation of the block: different inputs never meet. */
  lemma {:induction false} RoundsAreInjective(x: seq<Word>, y: seq<Word>, n: nat)
    requires |x| == |y| == 16 && Rounds(x, n) == Rounds(y, n)
    ensures x == y
  {
    hide DoubleRound, DoubleRoundBack;
    if n > 0 {
      DoubleRoundInverts(Rounds(x, n - 1));
      DoubleRoundInverts(Rounds(y, n - 1));
      RoundsAreInjective(x, y, n - 1);
    }
  }

  function WrappingAdd(p: Word, q: Word): Word {
    p + q
  }

  function Added(x: seq<Word>, y: seq<Word>): (z: seq<Word>)
    requires |x| == |y|
    ensures |z| == |x|
  {
    seq(|x|, i requires 0 <= i < |x| => WrappingAdd(x[i], y[i]))
  }

  function Core(input: seq<Word>): (y: seq<Word>)
    requires |input| == 16
    ensures |y| == 16
  {
    Added(Rounds(input, 10), input)
  }

  method StepInPlace(x: array<Word>, t: nat, p: nat, q: nat, n: nat)
    requires x.Length == 16 && t < 16 && p < 16 && q < 16 && n < 32
    modifies x
    ensures x[..] == Step(old(x[..]), t, p, q, n)
  {
    hide Mix;
    x[t] := Mix(x[t], x[p], x[q], n);
  }

  method QuarterInPlace(x: array<Word>, a: nat, b: nat, c: nat, d: nat)
    requires x.Length == 16 && FourDistinct(a, b, c, d)
    modifies x
    ensures x[..] == Quarter(old(x[..]), a, b, c, d)
  {
    hide Step;
    StepInPlace(x, b, a, d, 7);
    StepInPlace(x, c, b, a, 9);
    StepInPlace(x, d, c, b, 13);
    StepInPlace(x, a, d, c, 18);
  }

  method DoubleRoundInPlace(x: array<Word>)
    requires x.Length == 16
    modifies x
    ensures x[..] == DoubleRound(old(x[..]))
  {
    hide Quarter;
    QuarterInPlace(x, 0, 4, 8, 12);
    QuarterInPlace(x, 5, 9, 13, 1);
    QuarterInPlace(x, 10, 14, 2, 6);
    QuarterInPlace(x, 15, 3, 7, 11);
    QuarterInPlace(x, 0, 1, 2, 3);
    QuarterInPlace(x, 5, 6, 7, 4);
    QuarterInPlace(x, 10, 11, 8, 9);
    QuarterInPlace(x, 15, 12, 13, 14);
  }

  method AddInPlace(x: array<Word>, y: array<Word>)
    requires x.Length == y.Length && x != y
    modifies x
    ensures x[..] == Added(old(x[..]), y[..])
  {
    hide WrappingAdd;
    for i := 0 to x.Length
      invariant forall j :: 0 <= j < i ==> x[j] == WrappingAdd(old(x[j]), y[j])
      invariant forall j :: i <= j < x.Length ==> x[j] == old(x[j])
    {
      x[i] := WrappingAdd(x[i], y[i]);
    }
  }

  method SalsaCore(input: array<Word>) returns (x: array<Word>)
    requires input.Length == 16
    ensures fresh(x) && x.Length == 16 && x[..] == Core(input[..])
  {
    hide DoubleRound, Added;
    x := new Word[16](i requires 0 <= i < input.Length reads input => input[i]);
    assert x[..] == input[..];
    for n := 0 to 10
      invariant x[..] == Rounds(input[..], n)
    {
      DoubleRoundInPlace(x);
    }
    AddInPlace(x, input);
  }

  // ---------------------------------------------------------------------------
  // Blocks and the stream
  // ---------------------------------------------------------------------------

  function LoadWord(b: seq<Byte>, at: nat): Word
    requires at + 4 <= |b|
  {
    (b[at] as Word) | (b[at + 1] as Word << 8) | (b[at + 2] as Word << 16) | (b[at + 3] as Word << 24)
  }

  function StoreWord(w: Word): (b: seq<Byte>)
    ensures |b| == 4
  {
    [(w & 0xFF) as Byte, ((w >> 8) & 0xFF) as Byte, ((w >> 16) & 0xFF) as Byte, ((w >> 24) & 0xFF) as Byte]
  }

  function StoreWords(words: seq<Word>): (b: seq<Byte>)
    ensures |b| == 4 * |words|
  {
    if words == [] then [] else StoreWords(words[..|words| - 1]) + StoreWord(words[|words| - 1])
  }

  lemma {:induction false} WordReadsBack(w: Word)
    ensures LoadWord(StoreWord(w), 0) == w
  {
  }

  /** Loading is inverse to storing: word `i` reads back from byte `4 * i`. */
  lemma {:induction false} WordsReadBack(words: seq<Word>, i: nat)
    requires i < |words|
    ensures LoadWord(StoreWords(words), 4 * i) == words[i]
  {
    hide StoreWord, LoadWord;
    var init, last := words[..|words| - 1], words[|words| - 1];
    var b := StoreWords(words);
    assert b[4 * i..4 * i + 4] == if i < |init| then StoreWords(init)[4 * i..4 * i + 4] else StoreWord(last);
    LoadIsLocal(b, 4 * i);
    if i < |init| {
      WordsReadBack(init, i);
      LoadIsLocal(StoreWords(init), 4 * i);
    } else {
      WordReadsBack(last);
    }
  }

  lemma {:induction false} LoadIsLocal(b: seq<Byte>, at: nat)
    requires at + 4 <= |b|
    ensures LoadWord(b, at) == LoadWord(b[at..at + 4], 0)
  {
  }

  /** Constants, key words and the four middle words of a block. */
  function Layout(key: seq<Byte>, middle: seq<Word>): (input: seq<Word>)
    requires |key| == 32 && |middle| == 4
    ensures |input| == 16
  {
    [SIGMA[0], LoadWord(key, 0), LoadWord(key, 4), LoadWord(key, 8), LoadWord(key, 12),
     SIGMA[1], middle[0], middle[1], middle[2], middle[3],
     SIGMA[2], LoadWord(key, 16), LoadWord(key, 20), LoadWord(key, 24), LoadWord(key, 28), SIGMA[3]]
  }

  /** The subkey takes its words after the feed-forward addition, as the program does. */
  function SubKey(key: seq<Byte>, nonce: seq<Byte>): (out: seq<Byte>)
    requires |key| == 32 && |nonce| == 16
    ensures |out| == 32
  {
    var x := Core(Layout(key, [LoadWord(nonce, 0), LoadWord(nonce, 4), LoadWord(nonce, 8), LoadWord(nonce, 12)]));
    StoreWords([x[0], x[5], x[10], x[15], x[6], x[7], x[8], x[9]])
  }

  function LowWord(counter: BlockCounter): Word {
    (counter % 0x1_0000_0000) as Word
  }

  function HighWord(counter: BlockCounter): Word {
    (counter / 0x1_0000_0000) as Word
  }

  function Block(key: seq<Byte>, nonce: seq<Byte>, counter: BlockCounter): (out: seq<Byte>)
    requires |key| == 32 && |nonce| == 8
    ensures |out| == 64
  {
    StoreWords(Core(Layout(key, [LoadWord(nonce, 0), LoadWord(nonce, 4),
                                 LowWord(counter), HighWord(counter)])))
  }

  function WrappingIncrement(counter: BlockCounter): BlockCounter {
    (counter + 1) % 0x1_0000_0000_0000_0000
  }

  function CounterAt(block: nat): BlockCounter {
    if block == 0 then 0 else WrappingIncrement(CounterAt(block - 1))
  }

  /** Every block has a counter of its own, its number, until the counter wraps. */
  lemma {:induction false} CounterIsBlock(n: nat)
    ensures CounterAt(n) == n % 0x1_0000_0000_0000_0000
  {
    if n > 0 {
      CounterIsBlock(n - 1);
      OneMore(n - 1);
    }
  }

  lemma {:induction false} OneMore(n: nat)
    ensures (n % 0x1_0000_0000_0000_0000 + 1) % 0x1_0000_0000_0000_0000 == (n + 1) % 0x1_0000_0000_0000_0000
  {
  }

  /** The keystream depends on key, nonce and position only. */
  function Keystream(key: seq<Byte>, nonce: seq<Byte>, position: nat): Byte
    requires |key| == 32 && |nonce| == 24
  {
    Block(SubKey(key, nonce[..16]), nonce[16..], CounterAt(position / 64))[position % 64]
  }

  function Xor(p: Byte, q: Byte): Byte {
    p ^ q
  }

  function Xored(key: seq<Byte>, nonce: seq<Byte>, message: seq<Byte>): (out: seq<Byte>)
    requires |key| == 32 && |nonce| == 24
    ensures |out| == |message|
  {
    seq(|message|, i requires 0 <= i < |message| => Xor(message[i], Keystream(key, nonce, i)))
  }

  method Store(words: array<Word>) returns (out: array<Byte>)
    ensures fresh(out) && out.Length == 4 * words.Length && out[..] == StoreWords(words[..])
  {
    hide StoreWord;
    out := new Byte[4 * words.Length];
    for i := 0 to words.Length
      invariant out[..4 * i] == StoreWords(words[..i])
    {
      var w := StoreWord(words[i]);
      out[4 * i], out[4 * i + 1], out[4 * i + 2], out[4 * i + 3] := w[0], w[1], w[2], w[3];
      assert words[..i + 1][..i] == words[..i];
      assert out[..4 * (i + 1)] == out[..4 * i] + w;
    }
    assert words[..words.Length] == words[..];
    assert out[..4 * words.Length] == out[..];
  }

  method HSalsa(key: seq<Byte>, nonce: seq<Byte>) returns (out: array<Byte>)
    requires |key| == 32 && |nonce| == 16
    ensures fresh(out) && out.Length == 32 && out[..] == SubKey(key, nonce)
  {
    hide Core, StoreWords;
    var layout := Layout(key, [LoadWord(nonce, 0), LoadWord(nonce, 4), LoadWord(nonce, 8), LoadWord(nonce, 12)]);
    var input := new Word[16](i requires 0 <= i < 16 => layout[i]);
    assert input[..] == layout;
    var x := SalsaCore(input);
    var words := new Word[][x[0], x[5], x[10], x[15], x[6], x[7], x[8], x[9]];
    assert words[..] == [x[0], x[5], x[10], x[15], x[6], x[7], x[8], x[9]];
    out := Store(words);
  }

  method SalsaBlock(key: seq<Byte>, nonce: seq<Byte>, counter: BlockCounter) returns (out: array<Byte>)
    requires |key| == 32 && |nonce| == 8
    ensures fresh(out) && out.Length == 64 && out[..] == Block(key, nonce, counter)
  {
    hide Core, StoreWords;
    var middle := [LoadWord(nonce, 0), LoadWord(nonce, 4), LowWord(counter), HighWord(counter)];
    var layout := Layout(key, middle);
    var input := new Word[16](i requires 0 <= i < 16 => layout[i]);
    assert input[..] == layout;
    var x := SalsaCore(input);
    out := Store(x);
  }

  /** One block of output, or less at the end. */
  method XorBlock(message: seq<Byte>, block: array<Byte>, out: array<Byte>, offset: nat, take: nat)
    requires out.Length == |message| && block.Length == 64 && block != out
    requires take <= 64 && offset + take <= |message|
    modifies out
    ensures forall j :: 0 <= j < offset ==> out[j] == old(out[j])
    ensures forall i :: 0 <= i < take ==> out[offset + i] == Xor(message[offset + i], block[i])
  {
    hide Xor;
    for i := 0 to take
      invariant forall j :: 0 <= j < offset ==> out[j] == old(out[j])
      invariant forall j :: 0 <= j < i ==> out[offset + j] == Xor(message[offset + j], block[j])
    {
      out[offset + i] := Xor(message[offset + i], block[i]);
    }
  }

  lemma {:induction false} KeystreamInBlock(key: seq<Byte>, nonce: seq<Byte>, n: nat, i: nat)
    requires |key| == 32 && |nonce| == 24 && i < 64
    ensures Keystream(key, nonce, 64 * n + i) == Block(SubKey(key, nonce[..16]), nonce[16..], CounterAt(n))[i]
  {
    hide Block, SubKey, CounterAt;
    assert (64 * n + i) / 64 == n && (64 * n + i) % 64 == i;
  }

  /** Once the next block is xored in, one more block of output follows the keystream. */
  lemma {:induction false} StreamExtends(key: seq<Byte>, nonce: seq<Byte>, message: seq<Byte>, block: seq<Byte>,
        out: seq<Byte>, n: nat, take: nat)
    requires |key| == 32 && |nonce| == 24 && |out| == |message| && take <= 64 && 64 * n + take <= |message|
    requires block == Block(SubKey(key, nonce[..16]), nonce[16..], CounterAt(n))
    requires forall i :: 0 <= i < take ==> out[64 * n + i] == Xor(message[64 * n + i], block[i])
    ensures forall j :: 64 * n <= j < 64 * n + take ==> out[j] == Xor(message[j], Keystream(key, nonce, j))
  {
    hide Block, SubKey, Keystream, Xor, CounterAt;
    forall j | 64 * n <= j < 64 * n + take ensures out[j] == Xor(message[j], Keystream(key, nonce, j)) {
      var i := j - 64 * n;
      KeystreamInBlock(key, nonce, n, i);
      assert out[64 * n + i] == Xor(message[64 * n + i], block[i]);
    }
  }

  /** Fills the output block by block. */
  method XSalsaXor(key: seq<Byte>, nonce: seq<Byte>, message: seq<Byte>) returns (out: array<Byte>)
    requires |key| == 32 && |nonce| == 24
    ensures fresh(out) && out.Length == |message| && out[..] == Xored(key, nonce, message)
  {
    hide Block, SubKey, Keystream, Xor, WrappingIncrement;
    var derived := HSalsa(key, nonce[..16]);
    var subkey := derived[..];
    out := new Byte[|message|];
    var offset: nat := 0;
    var counter: BlockCounter := 0;
    ghost var done: nat := 0;
    while offset < |message|
      invariant counter == CounterAt(done) && offset <= |message|
      invariant offset == 64 * done || offset == |message|
      invariant forall j :: 0 <= j < offset ==> out[j] == Xor(message[j], Keystream(key, nonce, j))
      decreases |message| - offset
    {
      var block := SalsaBlock(subkey, nonce[16..], counter);
      var take := if |message| - offset < 64 then |message| - offset else 64;
      XorBlock(message, block, out, offset, take);
      StreamExtends(key, nonce, message, block[..], out[..], done, take);
      offset := offset + take;
      counter := WrappingIncrement(counter);
      done := done + 1;
    }
  }

  lemma {:induction false} XorByteTwice(p: Byte, q: Byte)
    ensures Xor(Xor(p, q), q) == p
  {
  }

  /** Applying the stream twice gives the message back. */
  lemma {:induction false} XoredTwice(key: seq<Byte>, nonce: seq<Byte>, message: seq<Byte>)
    requires |key| == 32 && |nonce| == 24
    ensures Xored(key, nonce, Xored(key, nonce, message)) == message
  {
    hide Keystream, Xor;
    forall i | 0 <= i < |message| ensures Xored(key, nonce, Xored(key, nonce, message))[i] == message[i] {
      XorByteTwice(message[i], Keystream(key, nonce, i));
    }
  }

  /** A prefix of the message meets the same keystream. */
  lemma {:induction false} XoredPrefix(key: seq<Byte>, nonce: seq<Byte>, message: seq<Byte>, n: nat)
    requires |key| == 32 && |nonce| == 24 && n <= |message|
    ensures Xored(key, nonce, message[..n]) == Xored(key, nonce, message)[..n]
  {
    hide Keystream, Xor;
  }

  // ---------------------------------------------------------------------------
  // The stream, byte by byte
  // ---------------------------------------------------------------------------

  /** "expand 32-byte k" in ASCII. */
  const EXPAND: seq<Byte> :=
    [0x65, 0x78, 0x70, 0x61, 0x6E, 0x64, 0x20, 0x33, 0x32, 0x2D, 0x62, 0x79, 0x74, 0x65, 0x20, 0x6B]

  /** The 64 bytes that go into the core, as in section 10 of the Salsa20 specification. */
  function Expansion(key: seq<Byte>, middle: seq<Byte>): seq<Byte>
    requires |key| == 32
  {
    EXPAND[..4] + key[..16] + EXPAND[4..8] + middle + EXPAND[8..12] + key[16..] + EXPAND[12..]
  }

  lemma {:induction false} LoadedIsStored(b: seq<Byte>, at: nat)
    requires at + 4 <= |b|
    ensures StoreWord(LoadWord(b, at)) == b[at..at + 4]
  {
    LoadIsLocal(b, at);
    FourBytesReadBack(b[at], b[at + 1], b[at + 2], b[at + 3]);
    assert b[at..at + 4] == [b[at], b[at + 1], b[at + 2], b[at + 3]];
    hide LoadWord, StoreWord;
  }

  lemma {:induction false} FourBytesReadBack(p: Byte, q: Byte, r: Byte, s: Byte)
    ensures StoreWord(LoadWord([p, q, r, s], 0)) == [p, q, r, s]
  {
  }

  lemma {:induction false} StoredConcat(a: seq<Word>, b: seq<Word>)
    ensures StoreWords(a + b) == StoreWords(a) + StoreWords(b)
  {
    hide StoreWord;
    if b == [] {
      assert a + b == a;
    } else {
      assert (a + b)[..|a + b| - 1] == a + b[..|b| - 1];
      StoredConcat(a, b[..|b| - 1]);
    }
  }

  /** Four words loaded one behind the other store back as the sixteen bytes. */
  lemma {:induction false} FourStored(b: seq<Byte>, at: nat)
    requires at + 16 <= |b|
    ensures StoreWords([LoadWord(b, at), LoadWord(b, at + 4), LoadWord(b, at + 8), LoadWord(b, at + 12)])
      == b[at..at + 16]
  {
    LoadedIsStored(b, at);
    LoadedIsStored(b, at + 4);
    LoadedIsStored(b, at + 8);
    LoadedIsStored(b, at + 12);
    var w0, w1, w2, w3 := LoadWord(b, at), LoadWord(b, at + 4), LoadWord(b, at + 8), LoadWord(b, at + 12);
    hide LoadWord, StoreWord;
    StoredFour(w0, w1, w2, w3);
    assert b[at..at + 16] == b[at..at + 4] + b[at + 4..at + 8] + b[at + 8..at + 12] + b[at + 12..at + 16];
  }

  lemma {:induction false} StoredFour(w0: Word, w1: Word, w2: Word, w3: Word)
    ensures StoreWords([w0, w1, w2, w3]) == StoreWord(w0) + StoreWord(w1) + StoreWord(w2) + StoreWord(w3)
  {
    hide StoreWord, StoreWords;
    StoredConcat([w0], [w1]);
    StoredConcat([w2], [w3]);
    StoredConcat([w0] + [w1], [w2] + [w3]);
    StoredOne(w0);
    StoredOne(w1);
    StoredOne(w2);
    StoredOne(w3);
    assert [w0] + [w1] + ([w2] + [w3]) == [w0, w1, w2, w3];
  }

  lemma {:induction false} StoredOne(w: Word)
    ensures StoreWords([w]) == StoreWord(w)
  {
    hide StoreWord;
    assert [w][..0] == [];
  }

  lemma {:induction false} SigmaStored()
    ensures StoreWord(SIGMA[0]) == EXPAND[..4] && StoreWord(SIGMA[1]) == EXPAND[4..8]
    ensures StoreWord(SIGMA[2]) == EXPAND[8..12] && StoreWord(SIGMA[3]) == EXPAND[12..]
  {
  }

  /** Half a key between two words of the constant. */
  function Half(key: seq<Byte>, at: nat, p: Word, q: Word): seq<Word>
    requires at + 16 <= |key|
  {
    [p, LoadWord(key, at), LoadWord(key, at + 4), LoadWord(key, at + 8), LoadWord(key, at + 12), q]
  }

  lemma {:induction false} HalfStored(key: seq<Byte>, at: nat, p: Word, q: Word)
    requires at + 16 <= |key|
    ensures StoreWords(Half(key, at, p, q)) == StoreWord(p) + key[at..at + 16] + StoreWord(q)
  {
    FourStored(key, at);
    StoredOne(p);
    StoredOne(q);
    hide LoadWord, StoreWord, StoreWords;
    var four := [LoadWord(key, at), LoadWord(key, at + 4), LoadWord(key, at + 8), LoadWord(key, at + 12)];
    StoredConcat([p] + four, [q]);
    StoredConcat([p], four);
    assert Half(key, at, p, q) == [p] + four + [q];
  }

  lemma {:induction false} LayoutHalves(key: seq<Byte>, middle: seq<Word>)
    requires |key| == 32 && |middle| == 4
    ensures Layout(key, middle) == Half(key, 0, SIGMA[0], SIGMA[1]) + middle + Half(key, 16, SIGMA[2], SIGMA[3])
  {
    hide LoadWord, SIGMA;
  }

  /** What goes into the core, in bytes: the constant and the two halves of the key around the middle. */
  lemma {:induction false} LayoutIsExpansion(key: seq<Byte>, middle: seq<Word>)
    requires |key| == 32 && |middle| == 4
    ensures StoreWords(Layout(key, middle)) == Expansion(key, StoreWords(middle))
  {
    SigmaStored();
    HalfStored(key, 0, SIGMA[0], SIGMA[1]);
    HalfStored(key, 16, SIGMA[2], SIGMA[3]);
    LayoutHalves(key, middle);
    hide LoadWord, StoreWord, StoreWords, SIGMA, EXPAND, Layout, Half;
    StoredConcat(Half(key, 0, SIGMA[0], SIGMA[1]) + middle, Half(key, 16, SIGMA[2], SIGMA[3]));
    StoredConcat(Half(key, 0, SIGMA[0], SIGMA[1]), middle);
    assert key[16..32] == key[16..] && key[0..16] == key[..16];
  }

  /** What goes into the core is determined by its bytes. */
  lemma {:induction false} InputIsLayout(key: seq<Byte>, middle: seq<Word>, bytes: seq<Byte>, x: seq<Word>)
    requires |key| == 32 && |middle| == 4 && |x| == 16 && StoreWords(middle) == bytes
    requires StoreWords(x) == Expansion(key, bytes)
    ensures x == Layout(key, middle)
  {
    hide StoreWords, Layout, Expansion;
    LayoutIsExpansion(key, middle);
    StoredOnce(x, Layout(key, middle));
  }

  function SubKeyWords(y: seq<Word>): seq<Word>
    requires |y| == 16
  {
    [y[0], y[5], y[10], y[15], y[6], y[7], y[8], y[9]]
  }

  lemma {:induction false} SubKeyWordsStored(y: seq<Word>)
    requires |y| == 16
    ensures StoreWords(SubKeyWords(y))[16..] == StoreWords(y)[24..40]
    ensures forall i :: 0 <= i < 4 ==> StoreWords(SubKeyWords(y))[4 * i..4 * i + 4] == StoreWords(y)[20 * i..20 * i + 4]
  {
    hide StoreWord, StoreWords;
    var w := SubKeyWords(y);
    StoredAt(y);
    StoredAt(w);
    forall i | 0 <= i < 4 ensures StoreWords(w)[4 * i..4 * i + 4] == StoreWords(y)[20 * i..20 * i + 4] {
      assert StoreWords(y)[4 * (5 * i)..4 * (5 * i) + 4] == StoreWord(y[5 * i]);
      assert w[i] == y[5 * i];
    }
    MiddleStored(y);
  }

  lemma {:induction false} MiddleStored(y: seq<Word>)
    requires |y| == 16
    ensures StoreWords(SubKeyWords(y))[16..] == StoreWords(y)[24..40]
  {
    hide StoreWords;
    var w := SubKeyWords(y);
    assert w == w[..4] + y[6..10] && y == y[..6] + y[6..10] + y[10..];
    StoredConcat(w[..4], y[6..10]);
    StoredConcat(y[..6] + y[6..10], y[10..]);
    StoredConcat(y[..6], y[6..10]);
  }

  /** The subkey: the words on the diagonal, and the four in the middle of the square. */
  lemma {:induction false} SubKeyIs(key: seq<Byte>, nonce: seq<Byte>, x: seq<Word>)
    requires |key| == 32 && |nonce| == 16 && |x| == 16 && StoreWords(x) == Expansion(key, nonce)
    ensures SubKey(key, nonce)[16..] == StoreWords(Core(x))[24..40]
    ensures forall i :: 0 <= i < 4 ==> SubKey(key, nonce)[4 * i..4 * i + 4] == StoreWords(Core(x))[20 * i..20 * i + 4]
  {
    var middle := [LoadWord(nonce, 0), LoadWord(nonce, 4), LoadWord(nonce, 8), LoadWord(nonce, 12)];
    FourStored(nonce, 0);
    assert nonce[0..16] == nonce;
    InputIsLayout(key, middle, nonce, x);
    SubKeyWordsStored(Core(x));
    hide LoadWord, StoreWord, StoreWords, Layout, Core, Expansion;
  }

  lemma {:induction false} StoredAt(words: seq<Word>)
    ensures forall i :: 0 <= i < |words| ==> StoreWords(words)[4 * i..4 * i + 4] == StoreWord(words[i])
  {
    hide StoreWord;
    if words != [] { StoredAt(words[..|words| - 1]); }
  }

  /** Different words are stored as different bytes. */
  lemma {:induction false} StoredOnce(x: seq<Word>, y: seq<Word>)
    requires |x| == |y| && StoreWords(x) == StoreWords(y)
    ensures x == y
  {
    hide StoreWords, LoadWord;
    forall i | 0 <= i < |x| ensures x[i] == y[i] {
      WordsReadBack(x, i);
      WordsReadBack(y, i);
    }
  }

  lemma {:induction false} CounterHalves(n: nat)
    ensures n % 0x1_0000_0000_0000_0000 % 0x1_0000_0000 == n % 0x1_0000_0000
    ensures n % 0x1_0000_0000_0000_0000 / 0x1_0000_0000 == n / 0x1_0000_0000 % 0x1_0000_0000
  {
    var low, rest := n % 0x1_0000_0000, n / 0x1_0000_0000;
    var middle, high := rest % 0x1_0000_0000, rest / 0x1_0000_0000;
    assert n == 0x1_0000_0000_0000_0000 * high + (0x1_0000_0000 * middle + low);
    assert n % 0x1_0000_0000_0000_0000 == 0x1_0000_0000 * middle + low;
  }

  lemma {:induction false} TwoStored(b: seq<Byte>)
    requires |b| == 8
    ensures StoreWords([LoadWord(b, 0), LoadWord(b, 4)]) == b
  {
    LoadedIsStored(b, 0);
    LoadedIsStored(b, 4);
    StoredOne(LoadWord(b, 0));
    StoredOne(LoadWord(b, 4));
    StoredConcat([LoadWord(b, 0)], [LoadWord(b, 4)]);
    assert [LoadWord(b, 0)] + [LoadWord(b, 4)] == [LoadWord(b, 0), LoadWord(b, 4)];
    hide LoadWord, StoreWord, StoreWords;
    assert b[0..4] + b[4..8] == b;
  }

  /** The counter of a block, in two words. */
  function CounterWords(n: nat): (words: seq<Word>)
    ensures |words| == 2
  {
    [(n % 0x1_0000_0000) as Word, (n / 0x1_0000_0000 % 0x1_0000_0000) as Word]
  }

  lemma {:induction false} BlockAt(key: seq<Byte>, nonce: seq<Byte>, n: nat, x: seq<Word>)
    requires |key| == 32 && |nonce| == 8 && |x| == 16
    requires StoreWords(x) == Expansion(key, nonce + StoreWords(CounterWords(n)))
    ensures Block(key, nonce, CounterAt(n)) == StoreWords(Core(x))
  {
    var ends := [LoadWord(nonce, 0), LoadWord(nonce, 4)];
    TwoStored(nonce);
    StoredConcat(ends, CounterWords(n));
    CounterIsWords(n);
    hide LoadWord, StoreWords, Layout, Core, Expansion, CounterAt, CounterWords, LowWord, HighWord;
    assert ends + [LowWord(CounterAt(n)), HighWord(CounterAt(n))]
        == [LoadWord(nonce, 0), LoadWord(nonce, 4), LowWord(CounterAt(n)), HighWord(CounterAt(n))];
    InputIsLayout(key, ends + CounterWords(n), nonce + StoreWords(CounterWords(n)), x);
  }

  lemma {:induction false} CounterIsWords(n: nat)
    ensures CounterWords(n) == [LowWord(CounterAt(n)), HighWord(CounterAt(n))]
  {
    CounterIsBlock(n);
    CounterHalves(n);
    hide CounterAt;
  }

  /** Byte `64 * n + i` is the message byte xored with byte `i` of the block that counts `n`. */
  lemma {:induction false} OutputAt(key: seq<Byte>, nonce: seq<Byte>, message: seq<Byte>, n: nat, i: nat, x: seq<Word>)
    requires |key| == 32 && |nonce| == 24 && i < 64 && 64 * n + i < |message| && |x| == 16
    requires StoreWords(x) == Expansion(SubKey(key, nonce[..16]), nonce[16..] + StoreWords(CounterWords(n)))
    ensures Xored(key, nonce, message)[64 * n + i] == message[64 * n + i] ^ StoreWords(Core(x))[i]
  {
    BlockAt(SubKey(key, nonce[..16]), nonce[16..], n, x);
    KeystreamInBlock(key, nonce, n, i);
    hide StoreWords, Core, SubKey, Keystream, Block, CounterAt, Expansion;
  }
}
