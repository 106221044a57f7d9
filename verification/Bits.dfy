/** Bit strings, bytes and big-endian words: what the byte-level padding and the word assembly of the digest
say about the bits of the message. */
module Bits {
  import opened Arithmetic
  import opened Words
  import opened Fips180
  import opened Padding

  /** `n` halved `b` times. */
  function Halved(n: nat, b: nat): nat { if b == 0 then n else Halved(n / 2, b - 1) }

  lemma {:induction false} HalvedIs(n: nat, b: nat)
    ensures Halved(n, b) == n / Pow2(b)
  {
    if b > 0 {
      HalvedIs(n / 2, b - 1);
      QuotientOfQuotient(n, Pow2(b - 1));
    }
  }

  lemma {:induction false} BitsOfSplit(n: nat, a: nat, b: nat)
    ensures BitsOf(n, a + b) == BitsOf(Halved(n, b), a) + BitsOf(n, b)
  {
    if b > 0 {
      BitsOfSplit(n / 2, a, b - 1);
      assert BitsOf(n, a + b) == BitsOf(n / 2, a + (b - 1)) + [n % 2 == 1];
    }
  }

  lemma QuotientOfQuotient(n: nat, p: nat)
    requires p > 0
    ensures n / 2 / p == n / (2 * p)
  {
    var h := n / 2;
    var q, r := h / p, h % p;
    assert h == p * q + r;
    assert n == (2 * p) * q + (2 * r + n % 2);
    QuotientIs(n, 2 * p, q, 2 * r + n % 2);
  }

  /** Only the low bits matter. */
  lemma {:induction false} BitsOfRemainder(n: nat, b: nat)
    ensures BitsOf(n % Pow2(b), b) == BitsOf(n, b)
  {
    if b > 0 {
      var p := Pow2(b - 1);
      HalvedRemainder(n, p);
      var m := n % (2 * p);
      assert m / 2 == n / 2 % p && m % 2 == n % 2;
      BitsOfRemainder(n / 2, b - 1);
    }
  }

  lemma {:induction false} ValueOfBits(n: nat, b: nat)
    requires n < Pow2(b)
    ensures Value(BitsOf(n, b)) == n
  {
    if b > 0 {
      ValueOfBits(n / 2, b - 1);
      assert BitsOf(n, b)[..b - 1] == BitsOf(n / 2, b - 1);
    }
  }

  // ---- Bytes as bits --------------------------------------------------------------------------

  function ByteBits(bytes: seq<int>): (bits: Fips180.Bits)
    requires AllBytes(bytes)
    ensures |bits| == 8 * |bytes|
  {
    if bytes == [] then [] else BitsOf(bytes[0], 8) + ByteBits(bytes[1..])
  }

  lemma {:induction false} ByteBitsOfConcat(a: seq<int>, b: seq<int>)
    requires AllBytes(a) && AllBytes(b)
    ensures ByteBits(a + b) == ByteBits(a) + ByteBits(b)
  {
    if a == [] {
      assert a + b == b;
    } else {
      assert (a + b)[1..] == a[1..] + b;
      ByteBitsOfConcat(a[1..], b);
    }
  }

  lemma ByteBitsOfSlice(bytes: seq<int>, i: nat, j: nat)
    requires AllBytes(bytes) && i <= j <= |bytes|
    ensures ByteBits(bytes)[8 * i..8 * j] == ByteBits(bytes[i..j])
  {
    hide BitsOf;
    hide ByteBits;
    var head, middle, tail := bytes[..i], bytes[i..j], bytes[j..];
    assert bytes == head + middle + tail;
    ByteBitsOfConcat(head + middle, tail);
    ByteBitsOfConcat(head, middle);
    var a, b, c := ByteBits(head), ByteBits(middle), ByteBits(tail);
    assert ByteBits(bytes) == a + b + c && |a| == 8 * i && |a| + |b| == 8 * j;
    Middle(a, b, c);
  }

  lemma Middle<T>(a: seq<T>, b: seq<T>, c: seq<T>)
    ensures (a + b + c)[|a|..|a| + |b|] == b
  {
  }

  lemma {:induction false} ByteBitsOfZeros(n: nat)
    ensures ByteBits(Zeros(n)) == seq(8 * n, _ => false)
  {
    if n > 0 {
      assert Zeros(n)[1..] == Zeros(n - 1);
      ByteBitsOfZeros(n - 1);
      ZeroBits(8);
      assert seq(8 * n, _ => false) == seq(8, _ => false) + seq(8 * (n - 1), _ => false);
    }
  }

  lemma {:induction false} ZeroBits(width: nat)
    ensures BitsOf(0, width) == seq(width, _ => false)
  {
    if width > 0 { ZeroBits(width - 1); }
  }

  // ---- Words ----------------------------------------------------------------------------------

  /** The four bytes of a word, most significant first. */
  lemma BytesOfWord(w: Word)
    ensures ByteBits([w / 0x100_0000 % 256, w / 0x1_0000 % 256, w / 0x100 % 256, w % 256]) == BitsOf(w, 32)
  {
    BytePowers();
    BitsOfRemainder(w / 0x100_0000, 8);
    BitsOfRemainder(w / 0x1_0000, 8);
    BitsOfRemainder(w / 0x100, 8);
    BitsOfRemainder(w, 8);
    HalvedIs(w, 8);
    HalvedIs(w, 16);
    HalvedIs(w, 24);
    SplitWord(w, 8, 16, 24);
    FourBytes(w / 0x100_0000 % 256, w / 0x1_0000 % 256, w / 0x100 % 256, w % 256);
  }

  lemma SplitWord(w: Word, b1: nat, b2: nat, b3: nat)
    requires b1 == 8 && b2 == 16 && b3 == 24
    ensures BitsOf(w, 32)
         == BitsOf(Halved(w, b3), b1) + (BitsOf(Halved(w, b2), b1) + (BitsOf(Halved(w, b1), b1) + BitsOf(w, b1)))
  {
    BitsOfSplit(w, b1, b3);
    BitsOfSplit(w, b1, b2);
    BitsOfSplit(w, b1, b1);
  }

  lemma BytePowers()
    ensures Pow2(8) == 0x100 && Pow2(16) == 0x1_0000 && Pow2(24) == 0x100_0000
  {
    assert Pow2(12) == 0x1000;
    assert Pow2(20) == 0x10_0000;
  }

  lemma FourBytes(b0: Byte, b1: Byte, b2: Byte, b3: Byte)
    ensures ByteBits([b0, b1, b2, b3]) == BitsOf(b0, 8) + (BitsOf(b1, 8) + (BitsOf(b2, 8) + BitsOf(b3, 8)))
  {
    hide BitsOf;
    ByteBitsCons(b0, [b1, b2, b3]);
    ByteBitsCons(b1, [b2, b3]);
    ByteBitsCons(b2, [b3]);
    ByteBitsCons(b3, []);
    assert [b0] + [b1, b2, b3] == [b0, b1, b2, b3];
    assert [b1] + [b2, b3] == [b1, b2, b3];
    assert [b2] + [b3] == [b2, b3];
    assert [b3] + [] == [b3];
  }

  lemma ByteBitsCons(b: Byte, rest: seq<int>)
    requires AllBytes(rest)
    ensures AllBytes([b] + rest) && ByteBits([b] + rest) == BitsOf(b, 8) + ByteBits(rest)
  {
    assert ([b] + rest)[1..] == rest;
  }

  // ---- The padding loop is section 5.1.1 ------------------------------------------------------

  lemma WordBytesAre(x: int)
    ensures ByteBits(WordBytes(x)) == BitsOf(ToUint32(x), 32)
  {
    var w := ToUint32(x);
    WordBytesByValue(x);
    BytesOfWord(w);
  }

  lemma LengthBytesAre(bitLength: nat)
    ensures ByteBits(LengthBytes(bitLength)) == BitsOf(bitLength, 64)
  {
    hide WordBytes;
    hide BitsOf;
    var high, low := bitLength / WORD, JsShr(bitLength, 0);
    ByteBitsOfConcat(WordBytes(high), WordBytes(low));
    WordBytesAre(high);
    WordBytesAre(low);
    HighWord(bitLength);
    LowWord(bitLength);
    SplitAt(bitLength, 32);
  }

  lemma HighWord(n: nat)
    ensures BitsOf(ToUint32(n / WORD), 32) == BitsOf(Halved(n, 32), 32)
  {
    Pow2Of32();
    HalvedIs(n, 32);
    BitsOfRemainder(n / WORD, 32);
  }

  lemma LowWord(n: nat)
    ensures BitsOf(ToUint32(JsShr(n, 0)), 32) == BitsOf(n, 32)
  {
    Pow2Of32();
    assert Pow2(0) == 1;
    WordIsItself(JsShr(n, 0));
    BitsOfRemainder(n, 32);
  }

  lemma SplitAt(n: nat, half: nat)
    ensures BitsOf(n, half + half) == BitsOf(Halved(n, half), half) + BitsOf(n, half)
  {
    BitsOfSplit(n, half, half);
  }

  lemma MarkerBits()
    ensures ByteBits([0x80]) == [true] + seq(7, _ => false)
  {
    var low := 7;
    BitsOfSplit(0x80, 1, low);
    BytePowers();
    assert Pow2(7) == 128;
    HalvedIs(0x80, low);
    BitsOfRemainder(0x80, low);
    ZeroBits(low);
    assert BitsOf(1, 1) == [true] by { assert BitsOf(0, 0) == []; }
    ByteBitsCons(0x80, []);
  }

  lemma ZeroCountIs(length: nat)
    ensures ZeroCount(8 * length) == 7 + 8 * ZeroBytes(length)
  {
    var n := ZeroBytes(length);
    var q := (55 - length) / 64;
    QuotientIs(447 - 8 * length, 512, q, 7 + 8 * n);
  }

  /** The bytes the loop produces are, bit for bit, the padded message of the standard. */
  lemma PaddingIsFips(message: seq<int>)
    requires AllBytes(message)
    ensures AllBytes(PaddedBytes(message)) && ByteBits(PaddedBytes(message)) == Pad(ByteBits(message))
  {
    hide LengthBytes;
    hide ByteBits;
    hide BitsOf;
    PaddedBytesAreBytes(message);
    var zeros := ZeroBytes(|message|);
    var l := |message| * 8;
    var head := message + [0x80];
    ByteBitsOfConcat(head + Zeros(zeros), LengthBytes(l));
    ByteBitsOfConcat(head, Zeros(zeros));
    ByteBitsOfConcat(message, [0x80]);
    MarkerBits();
    ByteBitsOfZeros(zeros);
    LengthBytesAre(l);
    ZeroCountIs(|message|);
    var bits, tail := ByteBits(message), BitsOf(|ByteBits(message)|, 64);
    assert ByteBits(PaddedBytes(message)) == bits + ([true] + seq(7, _ => false)) + seq(8 * zeros, _ => false) + tail;
    assert ([true] + seq(7, _ => false)) + seq(8 * zeros, _ => false) == [true] + seq(7 + 8 * zeros, _ => false);
  }

  /** Below 2^61 bytes, no two messages share a padding: the last eight bytes give the length back. */
  lemma PaddingInjective(a: seq<int>, b: seq<int>)
    requires AllBytes(a) && AllBytes(b) && 8 * |a| < Pow2(64) && 8 * |b| < Pow2(64)
    requires PaddedBytes(a) == PaddedBytes(b)
    ensures a == b
  {
    hide LengthBytes;
    hide BitsOf;
    hide ByteBits;
    var p := PaddedBytes(a);
    assert p[|p| - 8..] == LengthBytes(|a| * 8) == LengthBytes(|b| * 8);
    LengthBytesAre(|a| * 8);
    LengthBytesAre(|b| * 8);
    ValueOfBits(|a| * 8, 64);
    ValueOfBits(|b| * 8, 64);
    assert p[..|a|] == a && p[..|b|] == b;
  }
}
