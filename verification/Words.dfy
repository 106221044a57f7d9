/** Thirty-two-bit words, and JavaScript's bitwise operators on numbers.

A word is an integer below 2^32. The bitwise operators are defined bit by bit, so that what they do
to a value can be proved by induction on the bits: masking is a remainder, and joining two fields that
do not overlap is a sum.

JavaScript applies its bitwise operators to numbers: each operand is taken modulo 2^32 and, except for
`>>>`, the result is read back as a signed number (ECMA-262, sections 7.1.6, 7.1.7 and 13.12). */
module Words {
  import opened Arithmetic

  const WORD: int := 0x1_0000_0000

  type Word = x: int | 0 <= x < 0x1_0000_0000

  type Byte = b: int | 0 <= b < 256

  predicate AllBytes(bytes: seq<int>) { forall i :: 0 <= i < |bytes| ==> 0 <= bytes[i] < 256 }

  /** The largest magnitude up to which every integer is a double: past it, addition would round. */
  const MAX_SAFE: int := 0x1f_ffff_ffff_ffff

  datatype BitOp = And | Or | Xor

  function OnBits(op: BitOp, x: bool, y: bool): bool {
    match op
    case And => x && y
    case Or => x || y
    case Xor => x != y
  }

  function Bit(b: bool): nat { if b then 1 else 0 }

  /** `op` applied to the lowest `n` bits of `x` and `y`. */
  function Combine(op: BitOp, x: nat, y: nat, n: nat): (r: nat)
    ensures r < Pow2(n)
  {
    if n == 0 then 0
    else 2 * Combine(op, x / 2, y / 2, n - 1) + Bit(OnBits(op, x % 2 == 1, y % 2 == 1))
  }

  // ---- What the operators do to values --------------------------------------------------------

  lemma Pow2Of32()
    ensures Pow2(32) == WORD
  {
    assert Pow2(8) == 256;
    assert Pow2(16) == 65536 by { assert Pow2(12) == 4096; }
    assert Pow2(24) == 0x100_0000 by { assert Pow2(20) == 0x10_0000; }
    assert Pow2(28) == 0x1000_0000;
  }

  /** The lowest `k` bits of `x`, one at a time. */
  function LowBits(x: nat, k: nat): nat { if k == 0 then 0 else 2 * LowBits(x / 2, k - 1) + x % 2 }

  lemma {:induction false} LowBitsIs(x: nat, k: nat)
    ensures LowBits(x, k) == x % Pow2(k)
  {
    if k > 0 {
      LowBitsIs(x / 2, k - 1);
      HalvedRemainder(x, Pow2(k - 1));
    }
  }

  /** Masking with a run of ones keeps the remainder. */
  lemma AndMask(x: nat, k: nat, n: nat)
    requires k <= n
    ensures Combine(And, x, Pow2(k) - 1, n) == x % Pow2(k)
  {
    AndOnes(x, k, n);
    LowBitsIs(x, k);
  }

  lemma {:induction false} AndOnes(x: nat, k: nat, n: nat)
    requires k <= n
    ensures Combine(And, x, Pow2(k) - 1, n) == LowBits(x, k)
  {
    if k == 0 {
      AndZero(x, n);
    } else {
      AndOnes(x / 2, k - 1, n - 1);
      AndOddMask(x, Pow2(k - 1) - 1, n);
    }
  }

  lemma {:induction false} AndZero(x: nat, n: nat)
    ensures Combine(And, x, 0, n) == 0
  {
    if n > 0 {
      AndZero(x / 2, n - 1);
    }
  }

  lemma AndOddMask(x: nat, m: nat, n: nat)
    requires n > 0
    ensures Combine(And, x, 2 * m + 1, n) == 2 * Combine(And, x / 2, m, n - 1) + x % 2
  {
    assert (2 * m + 1) / 2 == m && (2 * m + 1) % 2 == 1;
  }

  /** Joining a field to one that starts above it is a sum. */
  lemma {:induction false} OrJoin(high: nat, low: nat, k: nat, n: nat)
    requires k <= n && low < Pow2(k) && high * Pow2(k) + low < Pow2(n)
    ensures Combine(Or, high * Pow2(k), low, n) == high * Pow2(k) + low
  {
    if n == 0 {
    } else if k == 0 {
      assert high * Pow2(0) == high;
      OrZero(high, n);
    } else {
      var p := Pow2(k - 1);
      assert high * Pow2(k) == 2 * (high * p);
      assert (high * Pow2(k)) / 2 == high * p && (high * Pow2(k)) % 2 == 0;
      OrJoin(high, low / 2, k - 1, n - 1);
    }
  }

  lemma {:induction false} OrZero(x: nat, n: nat)
    requires x < Pow2(n)
    ensures Combine(Or, x, 0, n) == x
  {
    if n > 0 {
      OrZero(x / 2, n - 1);
    }
  }

  // ---- JavaScript numbers ---------------------------------------------------------------------

  /** `ToUint32`, which is also what storing into a `Uint32Array` does. */
  function ToUint32(x: int): (w: Word) { x % WORD }

  /** `ToInt32`. */
  function ToInt32(x: int): (r: int)
    ensures -WORD / 2 <= r < WORD / 2 && ToUint32(r) == ToUint32(x)
  {
    var w := x % WORD;
    if w < WORD / 2 then w else w - WORD
  }

  lemma WordIsItself(w: Word)
    ensures ToUint32(w) == w
  {
  }

  lemma SmallIsItself(x: nat)
    requires x < WORD / 2
    ensures ToUint32(x) == x == ToInt32(x)
  {
  }

  function Bitwise(op: BitOp, x: Word, y: Word): (r: Word) {
    Pow2Of32();
    Combine(op, x, y, 32)
  }

  /** JavaScript's `x & y`, `x | y` and `x ^ y`. */
  function JsBitwise(op: BitOp, x: int, y: int): int {
    ToInt32(Bitwise(op, ToUint32(x), ToUint32(y)))
  }

  /** JavaScript's `~x`. */
  function JsNot(x: int): int { -ToInt32(x) - 1 }

  /** JavaScript's `x << n`. */
  function JsShl(x: int, n: nat): int
    requires n < 32
  {
    ToInt32(ToUint32(x) * Pow2(n))
  }

  /** JavaScript's `x >>> n`. */
  function JsShr(x: int, n: nat): (r: Word)
    requires n < 32
  {
    ShiftedIsWord(ToUint32(x), n);
    ToUint32(x) / Pow2(n)
  }

  /** JavaScript's `x >> n`, the sign-extending shift. */
  function JsSar(x: int, n: nat): int
    requires n < 32
  {
    ToInt32(x) / Pow2(n)
  }

  lemma ShiftedIsWord(x: Word, n: nat)
    ensures 0 <= x / Pow2(n) < WORD
  {
    QuotientBounds(x, Pow2(n));
  }

  /** JavaScript's `+`, exact only while the sum is a safe integer. */
  function JsAdd(x: int, y: int): (r: int)
    requires -MAX_SAFE <= x + y <= MAX_SAFE
  {
    x + y
  }

  /** Taking a word of a sum, a complement or a shift, modulo 2^32. */
  lemma ToUint32OfSum(x: int, y: int)
    ensures ToUint32(x + y) == ToUint32(ToUint32(x) + ToUint32(y))
  {
    var q, q' := x / WORD, y / WORD;
    var s := x % WORD + y % WORD;
    assert x + y == WORD * (q + q') + s;
    var k, r := s / WORD, s % WORD;
    QuotientIs(x + y, WORD, q + q' + k, r);
  }

  lemma ToUint32OfNot(x: int)
    ensures ToUint32(JsNot(x)) == WORD - 1 - ToUint32(x)
  {
    var i := ToInt32(x);
    if i < 0 {
      QuotientIs(i, WORD, -1, i + WORD);
      QuotientIs(-i - 1, WORD, 0, -i - 1);
    } else {
      QuotientIs(-i - 1, WORD, -1, WORD - 1 - i);
    }
  }
}
