/** The padding loop of `packages/contracts/src/digest.ts`, on bytes. */
module Padding {
  import opened Arithmetic
  import opened Words

  function Zeros(n: nat): (z: seq<int>) { seq(n, _ => 0) }

  /** The four bytes the padding loop pushes for one word. */
  function WordBytes(word: int): (bytes: seq<int>)
    ensures AllBytes(bytes) && |bytes| == 4
  {
    MaskByte(JsShr(word, 24));
    MaskByte(JsShr(word, 16));
    MaskByte(JsShr(word, 8));
    MaskByte(word);
    [JsBitwise(And, JsShr(word, 24), 0xFF), JsBitwise(And, JsShr(word, 16), 0xFF),
     JsBitwise(And, JsShr(word, 8), 0xFF), JsBitwise(And, word, 0xFF)]
  }

  lemma WordBytesByValue(word: int)
    ensures var w := ToUint32(word);
      WordBytes(word) == [w / 0x100_0000 % 256, w / 0x1_0000 % 256, w / 0x100 % 256, w % 256]
  {
    hide JsBitwise;
    assert Pow2(8) == 0x100;
    assert Pow2(16) == 0x1_0000 by { assert Pow2(12) == 0x1000; }
    assert Pow2(24) == 0x100_0000 by { assert Pow2(20) == 0x10_0000; }
    ByteOfWord(word, 24);
    ByteOfWord(word, 16);
    ByteOfWord(word, 8);
    MaskByte(word);
  }

  lemma ByteOfWord(word: int, n: nat)
    requires n < 32
    ensures JsBitwise(And, JsShr(word, n), 0xFF) == ToUint32(word) / Pow2(n) % 256
  {
    MaskByte(JsShr(word, n));
    WordIsItself(JsShr(word, n));
  }

  lemma MaskByte(x: int)
    ensures JsBitwise(And, x, 0xFF) == ToUint32(x) % 256
  {
    Pow2Of32();
    assert Pow2(8) == 256;
    AndMask(ToUint32(x), 8, 32);
    SmallIsItself(0xFF);
    SmallIsItself(ToUint32(x) % 256);
  }

  /** The guard of the padding loop. */
  predicate Unfinished(length: nat) { length % 64 != 56 }

  /** How many zero bytes the loop pushes before it stops. */
  function ZeroBytes(length: nat): (n: nat)
    ensures !Unfinished(length + 1 + n)
  {
    (55 - length) % 64
  }

  lemma UnfinishedBefore(length: nat, j: nat)
    requires j < ZeroBytes(length)
    ensures Unfinished(length + 1 + j)
  {
    var n := ZeroBytes(length);
    var q := (length + 1 + n) / 64;
    assert length + 1 + j == 64 * q + (56 - (n - j));
    if n - j <= 56 {
      QuotientIs(length + 1 + j, 64, q, 56 - (n - j));
    } else {
      QuotientIs(length + 1 + j, 64, q - 1, 120 - (n - j));
    }
  }

  function PaddedBytes(message: seq<int>): seq<int> {
    message + [0x80] + Zeros(ZeroBytes(|message|)) + LengthBytes(|message| * 8)
  }

  function LengthBytes(bitLength: nat): (bytes: seq<int>)
    ensures |bytes| == 8 && AllBytes(bytes)
  {
    WordBytes(bitLength / WORD) + WordBytes(JsShr(bitLength, 0))
  }

  lemma PaddedBytesAreBytes(message: seq<int>)
    requires AllBytes(message)
    ensures AllBytes(PaddedBytes(message)) && |PaddedBytes(message)| % 64 == 0
  {
    hide WordBytes;
    hide LengthBytes;
    var length := LengthBytes(|message| * 8);
    var bytes := PaddedBytes(message);
    assert |bytes| == |message| + 1 + ZeroBytes(|message|) + 8;
    forall i | 0 <= i < |bytes| ensures 0 <= bytes[i] < 256 {
      if i >= |bytes| - 8 { assert bytes[i] == length[i - (|bytes| - 8)]; }
    }
  }

  method PadBytes(message: seq<int>) returns (bytes: seq<int>)
    ensures bytes == PaddedBytes(message)
  {
    hide WordBytes;
    var bitLength := |message| * 8;
    ghost var stop := |message| + 1 + ZeroBytes(|message|);
    bytes := message + [0x80];
    if |bytes| < stop { UnfinishedBefore(|message|, 0); }
    while Unfinished(|bytes|)
      invariant |message| < |bytes| <= stop
      invariant bytes == message + [0x80] + Zeros(|bytes| - |message| - 1)
      invariant |bytes| < stop ==> Unfinished(|bytes|)
      decreases stop - |bytes|
    {
      bytes := bytes + [0];
      if |bytes| < stop { UnfinishedBefore(|message|, |bytes| - |message| - 1); }
    }
    var high := bitLength / WORD;
    var low := JsShr(bitLength, 0);
    bytes := bytes + WordBytes(high);
    bytes := bytes + WordBytes(low);
  }
}
