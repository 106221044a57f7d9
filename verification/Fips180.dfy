/** The Secure Hash Standard (FIPS 180-4), as far as SHA-256 goes: the specification the hand-written digest
is proved against. A message is a string of bits. */
module Fips180 {
  import opened Arithmetic
  import opened Words

  type Bits = seq<bool>

  /** The integer a bit string denotes, most significant bit first (section 3.1). */
  function Value(bits: Bits): (v: nat)
    ensures v < Pow2(|bits|)
  {
    if bits == [] then 0 else 2 * Value(bits[..|bits| - 1]) + Bit(bits[|bits| - 1])
  }

  /** The low `width` bits of `n`, most significant first. */
  function BitsOf(n: nat, width: nat): (bits: Bits)
    ensures |bits| == width
  {
    if width == 0 then [] else BitsOf(n / 2, width - 1) + [n % 2 == 1]
  }

  // ---- Section 5: preprocessing ---------------------------------------------------------------

  predicate Fits(length: nat, k: nat) { (length + 1 + k) % 512 == 448 }

  /** The smallest non-negative solution of `length + 1 + k = 448 (mod 512)`. */
  function ZeroCount(length: nat): (k: nat)
    ensures Fits(length, k)
    ensures forall j: nat {:trigger Fits(length, j)} :: j < k ==> !Fits(length, j)
  {
    (447 - length) % 512
  }

  /** Section 5.1.1. The length field holds the length modulo 2^64; the standard stops below 2^64 bits. */
  function Pad(message: Bits): (padded: Bits)
    ensures |padded| % 512 == 0
  {
    var k := ZeroCount(|message|);
    assert (|message| + 1 + k + 64) % 512 == 0;
    message + [true] + seq(k, _ => false) + BitsOf(|message|, 64)
  }

  /** Section 5.2.1: sixteen words of a 512-bit block. */
  function Block(bits: Bits): (words: seq<Word>)
    requires |bits| == 512
    ensures |words| == 16
  {
    Pow2Of32();
    seq(16, t requires 0 <= t < 16 => Value(bits[32 * t..32 * t + 32]))
  }

  // ---- Section 4.1.2: functions on words ------------------------------------------------------

  function Plus(x: Word, y: Word): Word { (x + y) % WORD }

  function Not(x: Word): Word { WORD - 1 - x }

  function Shr(n: nat, x: Word): Word
    requires n < 32
  {
    ShiftedIsWord(x, n);
    x / Pow2(n)
  }

  function Shl(n: nat, x: Word): Word
    requires n < 32
  {
    x * Pow2(n) % WORD
  }

  function Rotr(n: nat, x: Word): Word
    requires 0 < n < 32
  {
    Bitwise(Or, Shr(n, x), Shl(32 - n, x))
  }

  function Xor3(x: Word, y: Word, z: Word): Word { Bitwise(Xor, Bitwise(Xor, x, y), z) }

  function Ch(x: Word, y: Word, z: Word): Word { Bitwise(Xor, Bitwise(And, x, y), Bitwise(And, Not(x), z)) }

  function Maj(x: Word, y: Word, z: Word): Word {
    Xor3(Bitwise(And, x, y), Bitwise(And, x, z), Bitwise(And, y, z))
  }

  function BigSigma0(x: Word): Word { Xor3(Rotr(2, x), Rotr(13, x), Rotr(22, x)) }

  function BigSigma1(x: Word): Word { Xor3(Rotr(6, x), Rotr(11, x), Rotr(25, x)) }

  function SmallSigma0(x: Word): Word { Xor3(Rotr(7, x), Rotr(18, x), Shr(3, x)) }

  function SmallSigma1(x: Word): Word { Xor3(Rotr(17, x), Rotr(19, x), Shr(10, x)) }

  // ---- Section 6.2.2: the hash ----------------------------------------------------------------

  datatype Working = Working(a: Word, b: Word, c: Word, d: Word, e: Word, f: Word, g: Word, h: Word)

  /** The first `t` words of the message schedule. */
  function Schedule(block: seq<Word>, t: nat): (w: seq<Word>)
    requires |block| == 16 <= t <= 64
    ensures |w| == t
  {
    if t == 16 then block
    else
      var w := Schedule(block, t - 1);
      var i := t - 1;
      w + [Plus(Plus(Plus(SmallSigma1(w[i - 2]), w[i - 7]), SmallSigma0(w[i - 15])), w[i - 16])]
  }

  function Round(s: Working, k: Word, w: Word): Working {
    var t1 := Plus(Plus(Plus(Plus(s.h, BigSigma1(s.e)), Ch(s.e, s.f, s.g)), k), w);
    var t2 := Plus(BigSigma0(s.a), Maj(s.a, s.b, s.c));
    Working(Plus(t1, t2), s.a, s.b, s.c, Plus(s.d, t1), s.e, s.f, s.g)
  }

  /** The working variables after the first `t` rounds. */
  function Rounds(s: Working, w: seq<Word>, t: nat): Working
    requires |w| == 64 && t <= 64
  {
    if t == 0 then s else Round(Rounds(s, w, t - 1), K(t - 1), w[t - 1])
  }

  function Compress(hash: Working, block: seq<Word>): Working
    requires |block| == 16
  {
    var s := Rounds(hash, Schedule(block, 64), 64);
    Working(Plus(hash.a, s.a), Plus(hash.b, s.b), Plus(hash.c, s.c), Plus(hash.d, s.d),
            Plus(hash.e, s.e), Plus(hash.f, s.f), Plus(hash.g, s.g), Plus(hash.h, s.h))
  }

  /** The hash value after the first `n` blocks of a padded message. */
  function Fold(padded: Bits, n: nat): Working
    requires 512 * n <= |padded|
  {
    if n == 0 then INITIAL else Compress(Fold(padded, n - 1), Block(padded[512 * (n - 1)..512 * n]))
  }

  function Sha256(message: Bits): Working {
    var padded := Pad(message);
    Fold(padded, |padded| / 512)
  }

  // ---- Sections 4.2.2 and 5.3.3: the constants ------------------------------------------------

  const K_ROWS: seq<seq<Word>> := [
    [0x428a2f98, 0x71374491, 0xb5c0fbcf, 0xe9b5dba5, 0x3956c25b, 0x59f111f1, 0x923f82a4, 0xab1c5ed5],
    [0xd807aa98, 0x12835b01, 0x243185be, 0x550c7dc3, 0x72be5d74, 0x80deb1fe, 0x9bdc06a7, 0xc19bf174],
    [0xe49b69c1, 0xefbe4786, 0x0fc19dc6, 0x240ca1cc, 0x2de92c6f, 0x4a7484aa, 0x5cb0a9dc, 0x76f988da],
    [0x983e5152, 0xa831c66d, 0xb00327c8, 0xbf597fc7, 0xc6e00bf3, 0xd5a79147, 0x06ca6351, 0x14292967],
    [0x27b70a85, 0x2e1b2138, 0x4d2c6dfc, 0x53380d13, 0x650a7354, 0x766a0abb, 0x81c2c92e, 0x92722c85],
    [0xa2bfe8a1, 0xa81a664b, 0xc24b8b70, 0xc76c51a3, 0xd192e819, 0xd6990624, 0xf40e3585, 0x106aa070],
    [0x19a4c116, 0x1e376c08, 0x2748774c, 0x34b0bcb5, 0x391c0cb3, 0x4ed8aa4a, 0x5b9cca4f, 0x682e6ff3],
    [0x748f82ee, 0x78a5636f, 0x84c87814, 0x8cc70208, 0x90befffa, 0xa4506ceb, 0xbef9a3f7, 0xc67178f2]]

  function K(t: nat): Word
    requires t < 64
  {
    K_ROWS[t / 8][t % 8]
  }

  const INITIAL: Working := Working(
    0x6a09e667, 0xbb67ae85, 0x3c6ef372, 0xa54ff53a, 0x510e527f, 0x9b05688c, 0x1f83d9ab, 0x5be0cd19)

  const PRIME_ROWS: seq<seq<nat>> := [
    [2, 3, 5, 7, 11, 13, 17, 19],
    [23, 29, 31, 37, 41, 43, 47, 53],
    [59, 61, 67, 71, 73, 79, 83, 89],
    [97, 101, 103, 107, 109, 113, 127, 131],
    [137, 139, 149, 151, 157, 163, 167, 173],
    [179, 181, 191, 193, 197, 199, 211, 223],
    [227, 229, 233, 239, 241, 251, 257, 263],
    [269, 271, 277, 281, 283, 293, 307, 311]]

  function Prime(t: nat): nat
    requires t < 64
  {
    PRIME_ROWS[t / 8][t % 8]
  }

  /** `k` is the first 32 bits of the fractional part of the cube root of `p`: for some integer part `c`,
  `(c + k / 2^32)^3 <= p < (c + (k + 1) / 2^32)^3`. */
  predicate CubeRootFraction(p: nat, k: Word) {
    exists c: nat {:trigger CubeRootBounds(p, c, k)} :: c < 8 && CubeRootBounds(p, c, k)
  }

  predicate CubeRootBounds(p: nat, c: nat, k: Word) {
    var n := c * 0x1_0000_0000 + k;
    n * n * n <= p * 0x1_00000000_00000000_00000000 < (n + 1) * (n + 1) * (n + 1)
  }

  predicate SquareRootFraction(p: nat, k: Word) {
    exists c: nat {:trigger SquareRootBounds(p, c, k)} :: c < 8 && SquareRootBounds(p, c, k)
  }

  predicate SquareRootBounds(p: nat, c: nat, k: Word) {
    var n := c * 0x1_0000_0000 + k;
    n * n <= p * 0x1_00000000_00000000 < (n + 1) * (n + 1)
  }

  /** The published round constants are the cube roots of the listed primes. */
  lemma RoundConstants(t: nat)
    requires t < 64
    ensures CubeRootFraction(Prime(t), K(t))
  {
    ConstantsOfRow0();
    ConstantsOfRow1();
    ConstantsOfRow2();
    ConstantsOfRow3();
    ConstantsOfRow4();
    ConstantsOfRow5();
    ConstantsOfRow6();
    ConstantsOfRow7();
  }

  lemma ConstantsOfRow0()
    ensures forall i :: 0 <= i < 8 ==> CubeRootFraction(PRIME_ROWS[0][i], K_ROWS[0][i])
  {
    assert CubeRootBounds(2, 1, 0x428a2f98);
    assert CubeRootBounds(3, 1, 0x71374491);
    assert CubeRootBounds(5, 1, 0xb5c0fbcf);
    assert CubeRootBounds(7, 1, 0xe9b5dba5);
    assert CubeRootBounds(11, 2, 0x3956c25b);
    assert CubeRootBounds(13, 2, 0x59f111f1);
    assert CubeRootBounds(17, 2, 0x923f82a4);
    assert CubeRootBounds(19, 2, 0xab1c5ed5);
  }

  lemma ConstantsOfRow1()
    ensures forall i :: 0 <= i < 8 ==> CubeRootFraction(PRIME_ROWS[1][i], K_ROWS[1][i])
  {
    assert CubeRootBounds(23, 2, 0xd807aa98);
    assert CubeRootBounds(29, 3, 0x12835b01);
    assert CubeRootBounds(31, 3, 0x243185be);
    assert CubeRootBounds(37, 3, 0x550c7dc3);
    assert CubeRootBounds(41, 3, 0x72be5d74);
    assert CubeRootBounds(43, 3, 0x80deb1fe);
    assert CubeRootBounds(47, 3, 0x9bdc06a7);
    assert CubeRootBounds(53, 3, 0xc19bf174);
  }

  lemma ConstantsOfRow2()
    ensures forall i :: 0 <= i < 8 ==> CubeRootFraction(PRIME_ROWS[2][i], K_ROWS[2][i])
  {
    assert CubeRootBounds(59, 3, 0xe49b69c1);
    assert CubeRootBounds(61, 3, 0xefbe4786);
    assert CubeRootBounds(67, 4, 0x0fc19dc6);
    assert CubeRootBounds(71, 4, 0x240ca1cc);
    assert CubeRootBounds(73, 4, 0x2de92c6f);
    assert CubeRootBounds(79, 4, 0x4a7484aa);
    assert CubeRootBounds(83, 4, 0x5cb0a9dc);
    assert CubeRootBounds(89, 4, 0x76f988da);
  }

  lemma ConstantsOfRow3()
    ensures forall i :: 0 <= i < 8 ==> CubeRootFraction(PRIME_ROWS[3][i], K_ROWS[3][i])
  {
    assert CubeRootBounds(97, 4, 0x983e5152);
    assert CubeRootBounds(101, 4, 0xa831c66d);
    assert CubeRootBounds(103, 4, 0xb00327c8);
    assert CubeRootBounds(107, 4, 0xbf597fc7);
    assert CubeRootBounds(109, 4, 0xc6e00bf3);
    assert CubeRootBounds(113, 4, 0xd5a79147);
    assert CubeRootBounds(127, 5, 0x06ca6351);
    assert CubeRootBounds(131, 5, 0x14292967);
  }

  lemma ConstantsOfRow4()
    ensures forall i :: 0 <= i < 8 ==> CubeRootFraction(PRIME_ROWS[4][i], K_ROWS[4][i])
  {
    assert CubeRootBounds(137, 5, 0x27b70a85);
    assert CubeRootBounds(139, 5, 0x2e1b2138);
    assert CubeRootBounds(149, 5, 0x4d2c6dfc);
    assert CubeRootBounds(151, 5, 0x53380d13);
    assert CubeRootBounds(157, 5, 0x650a7354);
    assert CubeRootBounds(163, 5, 0x766a0abb);
    assert CubeRootBounds(167, 5, 0x81c2c92e);
    assert CubeRootBounds(173, 5, 0x92722c85);
  }

  lemma ConstantsOfRow5()
    ensures forall i :: 0 <= i < 8 ==> CubeRootFraction(PRIME_ROWS[5][i], K_ROWS[5][i])
  {
    assert CubeRootBounds(179, 5, 0xa2bfe8a1);
    assert CubeRootBounds(181, 5, 0xa81a664b);
    assert CubeRootBounds(191, 5, 0xc24b8b70);
    assert CubeRootBounds(193, 5, 0xc76c51a3);
    assert CubeRootBounds(197, 5, 0xd192e819);
    assert CubeRootBounds(199, 5, 0xd6990624);
    assert CubeRootBounds(211, 5, 0xf40e3585);
    assert CubeRootBounds(223, 6, 0x106aa070);
  }

  lemma ConstantsOfRow6()
    ensures forall i :: 0 <= i < 8 ==> CubeRootFraction(PRIME_ROWS[6][i], K_ROWS[6][i])
  {
    assert CubeRootBounds(227, 6, 0x19a4c116);
    assert CubeRootBounds(229, 6, 0x1e376c08);
    assert CubeRootBounds(233, 6, 0x2748774c);
    assert CubeRootBounds(239, 6, 0x34b0bcb5);
    assert CubeRootBounds(241, 6, 0x391c0cb3);
    assert CubeRootBounds(251, 6, 0x4ed8aa4a);
    assert CubeRootBounds(257, 6, 0x5b9cca4f);
    assert CubeRootBounds(263, 6, 0x682e6ff3);
  }

  lemma ConstantsOfRow7()
    ensures forall i :: 0 <= i < 8 ==> CubeRootFraction(PRIME_ROWS[7][i], K_ROWS[7][i])
  {
    assert CubeRootBounds(269, 6, 0x748f82ee);
    assert CubeRootBounds(271, 6, 0x78a5636f);
    assert CubeRootBounds(277, 6, 0x84c87814);
    assert CubeRootBounds(281, 6, 0x8cc70208);
    assert CubeRootBounds(283, 6, 0x90befffa);
    assert CubeRootBounds(293, 6, 0xa4506ceb);
    assert CubeRootBounds(307, 6, 0xbef9a3f7);
    assert CubeRootBounds(311, 6, 0xc67178f2);
  }

  /** The initial hash value is the square roots of the first eight primes. */
  lemma InitialHashValue()
    ensures SquareRootFraction(Prime(0), INITIAL.a) && SquareRootFraction(Prime(1), INITIAL.b)
    ensures SquareRootFraction(Prime(2), INITIAL.c) && SquareRootFraction(Prime(3), INITIAL.d)
    ensures SquareRootFraction(Prime(4), INITIAL.e) && SquareRootFraction(Prime(5), INITIAL.f)
    ensures SquareRootFraction(Prime(6), INITIAL.g) && SquareRootFraction(Prime(7), INITIAL.h)
  {
    assert SquareRootBounds(2, 1, 0x6a09e667);
    assert SquareRootBounds(3, 1, 0xbb67ae85);
    assert SquareRootBounds(5, 2, 0x3c6ef372);
    assert SquareRootBounds(7, 2, 0xa54ff53a);
    assert SquareRootBounds(11, 3, 0x510e527f);
    assert SquareRootBounds(13, 3, 0x9b05688c);
    assert SquareRootBounds(17, 4, 0x1f83d9ab);
    assert SquareRootBounds(19, 4, 0x5be0cd19);
  }
}
