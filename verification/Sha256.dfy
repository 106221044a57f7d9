/** The hand-written SHA-256 of `packages/contracts/src/digest.ts`, against FIPS 180-4.

The code mixes signed 32-bit results, `>>> 0` and stores into `Uint32Array`s, and adds up to five of them as
doubles. Every expression is written here with JavaScript's own operators, and `JsAdd` asks of every sum that
it is a safe integer. */
module Sha256 {
  import opened JsText
  import opened Wrappers
  import opened Arithmetic
  import opened HexText
  import opened Words
  import opened Fips180
  import opened Utf8
  import opened Padding
  import Bits

  // ---- Operators commute with taking a word ---------------------------------------------------

  lemma WordOfBitwise(op: BitOp, x: int, y: int)
    ensures ToUint32(JsBitwise(op, x, y)) == Bitwise(op, ToUint32(x), ToUint32(y))
  {
    WordIsItself(Bitwise(op, ToUint32(x), ToUint32(y)));
  }

  function RotateRight(value: int, bits: nat): int
    requires 0 < bits < 32
  {
    JsBitwise(Or, JsShr(value, bits), JsShl(value, 32 - bits))
  }

  lemma WordOfRotate(value: int, bits: nat)
    requires 0 < bits < 32
    ensures ToUint32(RotateRight(value, bits)) == Rotr(bits, ToUint32(value))
  {
    hide Bitwise;
    WordOfBitwise(Or, JsShr(value, bits), JsShl(value, 32 - bits));
    WordIsItself(JsShr(value, bits));
  }

  function JsXor3(x: int, y: int, z: int): int { JsBitwise(Xor, JsBitwise(Xor, x, y), z) }

  lemma WordOfXor3(x: int, y: int, z: int)
    ensures ToUint32(JsXor3(x, y, z)) == Xor3(ToUint32(x), ToUint32(y), ToUint32(z))
  {
    hide Bitwise;
    hide JsBitwise;
    WordOfBitwise(Xor, x, y);
    WordOfBitwise(Xor, JsBitwise(Xor, x, y), z);
  }

  function RotateXor3(x: int, i: nat, j: nat, k: nat): int
    requires 0 < i < 32 && 0 < j < 32 && 0 < k < 32
  {
    JsXor3(RotateRight(x, i), RotateRight(x, j), RotateRight(x, k))
  }

  lemma WordOfRotateXor3(x: int, i: nat, j: nat, k: nat)
    requires 0 < i < 32 && 0 < j < 32 && 0 < k < 32
    ensures ToUint32(RotateXor3(x, i, j, k))
         == Xor3(Rotr(i, ToUint32(x)), Rotr(j, ToUint32(x)), Rotr(k, ToUint32(x)))
  {
    hide RotateRight;
    hide JsXor3;
    WordOfRotate(x, i);
    WordOfRotate(x, j);
    WordOfRotate(x, k);
    WordOfXor3(RotateRight(x, i), RotateRight(x, j), RotateRight(x, k));
  }

  function RotateShiftXor3(x: int, i: nat, j: nat, k: nat): int
    requires 0 < i < 32 && 0 < j < 32 && k < 32
  {
    JsXor3(RotateRight(x, i), RotateRight(x, j), JsShr(x, k))
  }

  lemma WordOfRotateShiftXor3(x: int, i: nat, j: nat, k: nat)
    requires 0 < i < 32 && 0 < j < 32 && k < 32
    ensures ToUint32(RotateShiftXor3(x, i, j, k))
         == Xor3(Rotr(i, ToUint32(x)), Rotr(j, ToUint32(x)), Shr(k, ToUint32(x)))
  {
    hide RotateRight;
    hide JsXor3;
    WordOfRotate(x, i);
    WordOfRotate(x, j);
    WordIsItself(JsShr(x, k));
    WordOfXor3(RotateRight(x, i), RotateRight(x, j), JsShr(x, k));
  }

  function Choice(e: int, f: int, g: int): int {
    JsBitwise(Xor, JsBitwise(And, e, f), JsBitwise(And, JsNot(e), g))
  }

  lemma WordOfChoice(e: int, f: int, g: int)
    ensures ToUint32(Choice(e, f, g)) == Ch(ToUint32(e), ToUint32(f), ToUint32(g))
  {
    hide Bitwise;
    hide JsBitwise;
    hide JsNot;
    WordOfBitwise(And, e, f);
    ToUint32OfNot(e);
    WordOfBitwise(And, JsNot(e), g);
    WordOfBitwise(Xor, JsBitwise(And, e, f), JsBitwise(And, JsNot(e), g));
  }

  function Majority(a: int, b: int, c: int): int {
    JsXor3(JsBitwise(And, a, b), JsBitwise(And, a, c), JsBitwise(And, b, c))
  }

  lemma WordOfMajority(a: int, b: int, c: int)
    ensures ToUint32(Majority(a, b, c)) == Maj(ToUint32(a), ToUint32(b), ToUint32(c))
  {
    hide Bitwise;
    hide JsBitwise;
    hide JsXor3;
    WordOfBitwise(And, a, b);
    WordOfBitwise(And, a, c);
    WordOfBitwise(And, b, c);
    WordOfXor3(JsBitwise(And, a, b), JsBitwise(And, a, c), JsBitwise(And, b, c));
  }

  // ---- Sums -----------------------------------------------------------------------------------

  lemma WordOfSum2(x: int, y: int)
    ensures ToUint32(x + y) == Plus(ToUint32(x), ToUint32(y))
  {
    ToUint32OfSum(x, y);
  }

  lemma WordOfSum4(x: int, y: int, z: int, u: int)
    ensures ToUint32(x + y + z + u) == Plus(Plus(Plus(ToUint32(u), ToUint32(z)), ToUint32(y)), ToUint32(x))
  {
    hide Plus;
    WordOfSum2(u, z);
    WordOfSum2(u + z, y);
    WordOfSum2(u + z + y, x);
    assert x + y + z + u == u + z + y + x;
  }

  lemma WordOfSum5(x: int, y: int, z: int, u: int, v: int)
    ensures ToUint32(x + y + z + u + v)
         == Plus(Plus(Plus(Plus(ToUint32(x), ToUint32(y)), ToUint32(z)), ToUint32(u)), ToUint32(v))
  {
    hide Plus;
    WordOfSum2(x, y);
    WordOfSum2(x + y, z);
    WordOfSum2(x + y + z, u);
    WordOfSum2(x + y + z + u, v);
  }

  // ---- Words of a block -----------------------------------------------------------------------

  function JoinBytes(b0: int, b1: int, b2: int, b3: int): Word {
    JsShr(JsBitwise(Or, JsBitwise(Or, JsBitwise(Or, JsShl(b0, 24), JsShl(b1, 16)), JsShl(b2, 8)), b3), 0)
  }

  lemma JoinedValue(b0: Byte, b1: Byte, b2: Byte, b3: Byte)
    ensures JoinBytes(b0, b1, b2, b3) == b0 * 0x100_0000 + b1 * 0x1_0000 + b2 * 0x100 + b3
  {
    hide JsBitwise;
    hide JsShl;
    hide JsShr;
    hide Bitwise;
    hide ToUint32;
    Bits.BytePowers();
    ShlByte(b0, 24);
    ShlByte(b1, 16);
    ShlByte(b2, 8);
    var x := JsBitwise(Or, JsShl(b0, 24), JsShl(b1, 16));
    var y := JsBitwise(Or, x, JsShl(b2, 8));
    JoinField(JsShl(b0, 24), JsShl(b1, 16), b0, b1 * 0x1_0000, 24);
    JoinField(x, JsShl(b2, 8), b0 * 0x100 + b1, b2 * 0x100, 16);
    WordIsItself(b3);
    JoinField(y, b3, b0 * 0x1_0000 + b1 * 0x100 + b2, b3, 8);
    ShiftByZero(JsBitwise(Or, y, b3));
  }

  lemma JoinField(x: int, y: int, high: nat, low: nat, k: nat)
    requires k <= 24 && low < Pow2(k) && high * Pow2(k) + low < WORD
    requires ToUint32(x) == high * Pow2(k) && ToUint32(y) == low
    ensures ToUint32(JsBitwise(Or, x, y)) == high * Pow2(k) + low
  {
    hide JsBitwise;
    hide ToUint32;
    WordOfBitwise(Or, x, y);
    Pow2Of32();
    OrJoin(high, low, k, 32);
  }

  lemma ShlByte(b: Byte, n: nat)
    requires n == 8 || n == 16 || n == 24
    ensures ToUint32(JsShl(b, n)) == b * Pow2(n)
  {
    hide ToUint32;
    Bits.BytePowers();
    WordIsItself(b);
    ProductIsWord(b, Pow2(n));
    WordIsItself(b * Pow2(n));
  }

  lemma ProductIsWord(b: Byte, p: nat)
    requires p == 0x100 || p == 0x1_0000 || p == 0x100_0000
    ensures 0 <= b * p < WORD
  {
    if p == 0x100 {
    } else if p == 0x1_0000 {
    } else {
    }
  }

  /** The shifted and joined bytes are the big-endian word of their bits. */
  lemma JoinedIsValue(b0: Byte, b1: Byte, b2: Byte, b3: Byte)
    ensures JoinBytes(b0, b1, b2, b3) == Value(Bits.ByteBits([b0, b1, b2, b3]))
  {
    hide JoinBytes;
    JoinedValue(b0, b1, b2, b3);
    var w := JoinBytes(b0, b1, b2, b3);
    BytesBack(w, b0, b1, b2, b3);
    Bits.BytesOfWord(w);
    Pow2Of32();
    Bits.ValueOfBits(w, 32);
  }

  lemma BytesBack(w: Word, b0: Byte, b1: Byte, b2: Byte, b3: Byte)
    requires w == b0 * 0x100_0000 + b1 * 0x1_0000 + b2 * 0x100 + b3
    ensures [w / 0x100_0000 % 256, w / 0x1_0000 % 256, w / 0x100 % 256, w % 256] == [b0, b1, b2, b3]
  {
    QuotientIs(w, 0x100, b0 * 0x1_0000 + b1 * 0x100 + b2, b3);
    QuotientIs(w, 0x1_0000, b0 * 0x100 + b1, b2 * 0x100 + b3);
    QuotientIs(w, 0x100_0000, b0, b1 * 0x1_0000 + b2 * 0x100 + b3);
  }

  // ---- The message schedule -------------------------------------------------------------------

  /** The block of sixteen words that starts at a byte offset. */
  function BlockAt(bytes: seq<int>, offset: nat): (block: seq<Word>)
    requires AllBytes(bytes) && offset + 64 <= |bytes|
    ensures |block| == 16
  {
    Block(Bits.ByteBits(bytes)[8 * offset..8 * (offset + 64)])
  }

  lemma LoadedWord(bytes: seq<int>, offset: nat, t: nat)
    requires AllBytes(bytes) && offset + 64 <= |bytes| && t < 16
    ensures var i := offset + t * 4;
      JoinBytes(bytes[i], bytes[i + 1], bytes[i + 2], bytes[i + 3]) == BlockAt(bytes, offset)[t]
  {
    hide JoinBytes;
    hide Bits.ByteBits;
    var i := offset + t * 4;
    var bits := Bits.ByteBits(bytes);
    Bits.ByteBitsOfSlice(bytes, i, i + 4);
    assert bits[8 * offset..8 * (offset + 64)][32 * t..32 * t + 32] == bits[8 * i..8 * (i + 4)];
    assert bytes[i..i + 4] == [bytes[i], bytes[i + 1], bytes[i + 2], bytes[i + 3]];
    JoinedIsValue(bytes[i], bytes[i + 1], bytes[i + 2], bytes[i + 3]);
  }

  method LoadBlock(bytes: seq<int>, offset: nat, schedule: array<Word>)
    requires AllBytes(bytes) && offset + 64 <= |bytes| && schedule.Length == 64
    modifies schedule
    ensures schedule[..16] == BlockAt(bytes, offset)
  {
    hide JoinBytes;
    hide BlockAt;
    for index := 0 to 16
      invariant forall t :: 0 <= t < index ==> schedule[t] == BlockAt(bytes, offset)[t]
    {
      var start := offset + index * 4;
      LoadedWord(bytes, offset, index);
      schedule[index] := JoinBytes(bytes[start], bytes[start + 1], bytes[start + 2], bytes[start + 3]);
    }
  }

  /** The sum the second loop stores at `index`, before the store takes it modulo 2^32. */
  function Extension(w: seq<Word>, index: nat): int
    requires 16 <= index <= |w|
  {
    var previous, recent := w[index - 15], w[index - 2];
    var small0 := RotateShiftXor3(previous, 7, 18, 3);
    var small1 := RotateShiftXor3(recent, 17, 19, 10);
    JsAdd(JsAdd(JsAdd(w[index - 16], small0), w[index - 7]), small1)
  }

  lemma ExtensionIs(block: seq<Word>, index: nat)
    requires |block| == 16 <= index < 64
    ensures Schedule(block, index + 1) == Schedule(block, index) + [ToUint32(Extension(Schedule(block, index), index))]
  {
    hide RotateShiftXor3;
    hide ToUint32;
    hide Xor3;
    hide Rotr;
    hide Shr;
    hide Plus;
    var w := Schedule(block, index);
    WordOfRotateShiftXor3(w[index - 15], 7, 18, 3);
    WordOfRotateShiftXor3(w[index - 2], 17, 19, 10);
    WordsAreThemselves(w);
    WordOfSum4(w[index - 16], RotateShiftXor3(w[index - 15], 7, 18, 3), w[index - 7],
               RotateShiftXor3(w[index - 2], 17, 19, 10));
  }

  lemma WordsAreThemselves(w: seq<Word>)
    ensures forall i :: 0 <= i < |w| ==> ToUint32(w[i]) == w[i]
  {
  }

  method ExtendSchedule(schedule: array<Word>)
    requires schedule.Length == 64
    modifies schedule
    ensures schedule[..] == Schedule(old(schedule[..16]), 64)
  {
    hide Extension;
    ghost var block := schedule[..16];
    for index := 16 to 64
      invariant schedule[..index] == Schedule(block, index)
    {
      ExtensionIs(block, index);
      schedule[index] := ToUint32(Extension(schedule[..index], index));
      assert schedule[..index + 1] == schedule[..index] + [schedule[index]];
    }
    assert schedule[..64] == schedule[..];
  }

  // ---- The rounds -----------------------------------------------------------------------------

  function First(s: Working, k: Word, w: Word): Word {
    var big1 := RotateXor3(s.e, 6, 11, 25);
    JsShr(JsAdd(JsAdd(JsAdd(JsAdd(s.h, big1), Choice(s.e, s.f, s.g)), k), w), 0)
  }

  function Second(s: Working): Word {
    JsShr(JsAdd(RotateXor3(s.a, 2, 13, 22), Majority(s.a, s.b, s.c)), 0)
  }

  lemma ShiftByZero(x: int)
    ensures JsShr(x, 0) == ToUint32(x)
  {
    assert Pow2(0) == 1;
  }

  lemma FirstIs(s: Working, k: Word, w: Word)
    ensures First(s, k, w) == Plus(Plus(Plus(Plus(s.h, BigSigma1(s.e)), Ch(s.e, s.f, s.g)), k), w)
  {
    hide RotateXor3;
    hide Choice;
    hide JsShr;
    hide ToUint32;
    hide Ch;
    hide Xor3;
    hide Rotr;
    hide Plus;
    var big1, choice := RotateXor3(s.e, 6, 11, 25), Choice(s.e, s.f, s.g);
    WordIsItself(s.e);
    WordIsItself(s.f);
    WordIsItself(s.g);
    WordIsItself(s.h);
    WordIsItself(k);
    WordIsItself(w);
    WordOfRotateXor3(s.e, 6, 11, 25);
    WordOfChoice(s.e, s.f, s.g);
    WordOfSum5(s.h, big1, choice, k, w);
    ShiftByZero(s.h + big1 + choice + k + w);
  }

  lemma SecondIs(s: Working)
    ensures Second(s) == Plus(BigSigma0(s.a), Maj(s.a, s.b, s.c))
  {
    hide RotateXor3;
    hide Majority;
    hide JsShr;
    hide ToUint32;
    hide Maj;
    hide Xor3;
    hide Rotr;
    hide Plus;
    var big0, majority := RotateXor3(s.a, 2, 13, 22), Majority(s.a, s.b, s.c);
    WordIsItself(s.a);
    WordIsItself(s.b);
    WordIsItself(s.c);
    WordOfRotateXor3(s.a, 2, 13, 22);
    WordOfMajority(s.a, s.b, s.c);
    WordOfSum2(big0, majority);
    ShiftByZero(big0 + majority);
  }

  function View(state: array<Word>): Working
    requires state.Length == 8
    reads state
  {
    Working(state[0], state[1], state[2], state[3], state[4], state[5], state[6], state[7])
  }

  /** The sixty-four rounds over the eight working variables. */
  method RunRounds(state: array<Word>, schedule: array<Word>) returns (s: Working)
    requires state.Length == 8 && schedule.Length == 64
    ensures s == Rounds(View(state), schedule[..], 64)
  {
    hide First;
    hide Second;
    hide JsShr;
    hide Plus;
    hide ToUint32;
    hide BigSigma0;
    hide BigSigma1;
    hide Ch;
    hide Maj;
    var a, b, c, d := state[0], state[1], state[2], state[3];
    var e, f, g, h := state[4], state[5], state[6], state[7];
    ghost var words := schedule[..];
    for index := 0 to 64
      invariant Working(a, b, c, d, e, f, g, h) == Rounds(View(state), words, index)
    {
      var before := Working(a, b, c, d, e, f, g, h);
      var first := First(before, K(index), schedule[index]);
      var second := Second(before);
      FirstIs(before, K(index), words[index]);
      SecondIs(before);
      SumOfWords(d, first);
      SumOfWords(first, second);
      h := g;
      g := f;
      f := e;
      e := JsShr(JsAdd(d, first), 0);
      d := c;
      c := b;
      b := a;
      a := JsShr(JsAdd(first, second), 0);
    }
    s := Working(a, b, c, d, e, f, g, h);
  }

  method AddInto(state: array<Word>, s: Working)
    requires state.Length == 8
    modifies state
    ensures View(state) == Working(
      Plus(old(state[0]), s.a), Plus(old(state[1]), s.b), Plus(old(state[2]), s.c), Plus(old(state[3]), s.d),
      Plus(old(state[4]), s.e), Plus(old(state[5]), s.f), Plus(old(state[6]), s.g), Plus(old(state[7]), s.h))
  {
    hide Plus;
    hide ToUint32;
    hide JsShr;
    SumOfWords(state[0], s.a);
    SumOfWords(state[1], s.b);
    SumOfWords(state[2], s.c);
    SumOfWords(state[3], s.d);
    SumOfWords(state[4], s.e);
    SumOfWords(state[5], s.f);
    SumOfWords(state[6], s.g);
    SumOfWords(state[7], s.h);
    state[0] := ToUint32(JsAdd(state[0], s.a));
    state[1] := ToUint32(JsAdd(state[1], s.b));
    state[2] := ToUint32(JsAdd(state[2], s.c));
    state[3] := ToUint32(JsAdd(state[3], s.d));
    state[4] := ToUint32(JsAdd(state[4], s.e));
    state[5] := ToUint32(JsAdd(state[5], s.f));
    state[6] := ToUint32(JsAdd(state[6], s.g));
    state[7] := ToUint32(JsAdd(state[7], s.h));
  }

  lemma SumOfWords(x: Word, y: Word)
    ensures ToUint32(x + y) == Plus(x, y) == JsShr(x + y, 0)
  {
    ShiftByZero(x + y);
  }

  // ---- The digest -----------------------------------------------------------------------------

  function WordHex(w: Word): Text { PadStart(ToString16(w), 8) }

  /** `Array.from(words, ...).join("")`. */
  function JoinHex(words: seq<Word>): Text {
    if words == [] then [] else WordHex(words[0]) + JoinHex(words[1..])
  }

  function WordsOf(s: Working): seq<Word> { [s.a, s.b, s.c, s.d, s.e, s.f, s.g, s.h] }

  /** The digest of a string: the hexadecimal text of FIPS 180-4's hash of its UTF-8 bits. */
  function HexDigest(text: Text): Text {
    EncodesToBytesOf(text);
    JoinHex(WordsOf(Fips180.Sha256(Bits.ByteBits(Encode(text)))))
  }

  /** One pass of the outer loop extends the fold of the compression function by one block. */
  lemma FoldStep(bytes: seq<int>, n: nat)
    requires AllBytes(bytes) && 64 * (n + 1) <= |bytes|
    ensures Fold(Bits.ByteBits(bytes), n + 1)
         == Compress(Fold(Bits.ByteBits(bytes), n), BlockAt(bytes, 64 * n))
  {
    hide Compress;
    hide Bits.ByteBits;
    hide Block;
    assert 8 * (64 * n) == 512 * n && 8 * (64 * n + 64) == 512 * (n + 1);
  }

  method Sha256Hex(text: Text) returns (hex: Text)
    ensures hex == HexDigest(text)
    ensures AllBytes(Encode(text)) && Spells(hex, Fips180.Sha256(Bits.ByteBits(Encode(text))))
  {
    HexDigestSpells(text);
    hide Spells;
    hide Encode;
    hide PaddedBytes;
    hide Bits.ByteBits;
    hide Schedule;
    hide Rounds;
    hide Fold;
    hide BlockAt;
    hide Pad;
    hide JoinHex;
    hide Plus;
    var message := Utf8Bytes(text);
    EncodesToBytesOf(text);
    var bytes := PadBytes(message);
    PaddedBytesAreBytes(message);
    Bits.PaddingIsFips(message);
    ghost var bits := Bits.ByteBits(bytes);
    var state := new Word[8];
    state[0], state[1], state[2], state[3] := INITIAL.a, INITIAL.b, INITIAL.c, INITIAL.d;
    state[4], state[5], state[6], state[7] := INITIAL.e, INITIAL.f, INITIAL.g, INITIAL.h;
    var schedule := new Word[64];
    FoldStart(bits);
    var offset := 0;
    ghost var n := 0;
    while offset < |bytes|
      invariant offset == 64 * n <= |bytes|
      invariant View(state) == Fold(bits, n)
    {
      LoadBlock(bytes, offset, schedule);
      ghost var block := schedule[..16];
      ExtendSchedule(schedule);
      ghost var before := View(state);
      var s := RunRounds(state, schedule);
      AddInto(state, s);
      assert View(state) == Compress(before, block);
      FoldStep(bytes, n);
      offset := offset + 64;
      n := n + 1;
    }
    assert state[..] == WordsOf(View(state));
    hex := JoinHex(state[..]);
  }

  lemma FoldStart(bits: Fips180.Bits)
    ensures Fold(bits, 0) == INITIAL
  {
  }

  lemma EncodesToBytesOf(text: Text)
    ensures AllBytes(Encode(text))
  {
    EncodesToBytes(CodePoints(text));
  }

  // ---- What the digest keeps apart ------------------------------------------------------------

  /** No two strings are hashed from the same blocks, lone surrogates included. */
  lemma PaddedTextInjective(a: Text, b: Text)
    requires 8 * |Encode(a)| < Pow2(64) && 8 * |Encode(b)| < Pow2(64)
    requires PaddedBytes(Encode(a)) == PaddedBytes(Encode(b))
    ensures a == b
  {
    hide Encode;
    hide PaddedBytes;
    EncodesToBytesOf(a);
    EncodesToBytesOf(b);
    Bits.PaddingInjective(Encode(a), Encode(b));
    EncodeInjective(a, b);
  }

  /** The hexadecimal text of a word is eight lowercase digits and determines the word. */
  lemma WordHexDetermines(v: Word, w: Word)
    ensures |WordHex(v)| == 8 && IsLowerHex(WordHex(v)) && (WordHex(v) == WordHex(w) ==> v == w)
  {
    Pow2Of32();
    PaddedHexIsDigits(v, 8);
    PaddedHexIsDigits(w, 8);
    HexDigitsDetermine(w, v, 8);
  }

  lemma {:induction false} JoinHexDetermines(s: seq<Word>, t: seq<Word>)
    requires |s| == |t|
    ensures |JoinHex(s)| == 8 * |s| && IsLowerHex(JoinHex(s))
    ensures JoinHex(s) == JoinHex(t) ==> s == t
  {
    hide WordHex;
    if s != [] {
      WordHexDetermines(s[0], t[0]);
      WordHexDetermines(t[0], t[0]);
      JoinHexDetermines(s[1..], t[1..]);
      assert JoinHex(s)[..8] == WordHex(s[0]) && JoinHex(s)[8..] == JoinHex(s[1..]);
      assert JoinHex(t)[..8] == WordHex(t[0]) && JoinHex(t)[8..] == JoinHex(t[1..]);
      assert s == [s[0]] + s[1..] && t == [t[0]] + t[1..];
    }
  }

  /** Eight digits at a time, a text denotes the words of a hash value in their order. */
  predicate Spells(hex: Text, hash: Working) {
    && |hex| == 64
    && ReadHex(hex[0..8]) == Some(hash.a) && ReadHex(hex[8..16]) == Some(hash.b)
    && ReadHex(hex[16..24]) == Some(hash.c) && ReadHex(hex[24..32]) == Some(hash.d)
    && ReadHex(hex[32..40]) == Some(hash.e) && ReadHex(hex[40..48]) == Some(hash.f)
    && ReadHex(hex[48..56]) == Some(hash.g) && ReadHex(hex[56..64]) == Some(hash.h)
  }

  lemma WordHexReads(w: Word)
    ensures |WordHex(w)| == 8 && ReadHex(WordHex(w)) == Some(w)
  {
    Pow2Of32();
    PaddedHexIsDigits(w, 8);
    ReadHexOfDigits(w, 8);
  }

  lemma {:induction false} JoinHexReads(words: seq<Word>, i: nat)
    requires i < |words|
    ensures |JoinHex(words)| == 8 * |words| && ReadHex(JoinHex(words)[8 * i..8 * i + 8]) == Some(words[i])
  {
    hide WordHex, ReadHex;
    WordHexReads(words[0]);
    if i > 0 {
      JoinHexReads(words[1..], i - 1);
      assert JoinHex(words)[8 * i..8 * i + 8] == JoinHex(words[1..])[8 * (i - 1)..8 * (i - 1) + 8];
    } else {
      assert JoinHex(words)[0..8] == WordHex(words[0]);
      if |words| > 1 { JoinHexReads(words[1..], 0); }
    }
  }

  /** For every string the digest spells the hash value of its UTF-8 bits. */
  lemma HexDigestSpells(text: Text)
    ensures AllBytes(Encode(text)) && Spells(HexDigest(text), Fips180.Sha256(Bits.ByteBits(Encode(text))))
  {
    hide Spells, JoinHex, Fips180.Sha256, Encode, Bits.ByteBits;
    EncodesToBytesOf(text);
    JoinedSpells(Fips180.Sha256(Bits.ByteBits(Encode(text))));
  }

  lemma JoinedSpells(hash: Working)
    ensures Spells(JoinHex(WordsOf(hash)), hash)
  {
    hide JoinHex, ReadHex;
    var words := WordsOf(hash);
    JoinHexReads(words, 0); JoinHexReads(words, 1); JoinHexReads(words, 2); JoinHexReads(words, 3);
    JoinHexReads(words, 4); JoinHexReads(words, 5); JoinHexReads(words, 6); JoinHexReads(words, 7);
  }

  /** The text returned is sixty-four lowercase hexadecimal digits, and two strings print the same digest
  exactly when FIPS 180-4 gives them the same hash value. */
  lemma HexDigestDetermines(a: Text, b: Text)
    ensures |HexDigest(a)| == 64 && IsLowerHex(HexDigest(a))
    ensures AllBytes(Encode(a)) && AllBytes(Encode(b))
    ensures HexDigest(a) == HexDigest(b)
       <==> Fips180.Sha256(Bits.ByteBits(Encode(a))) == Fips180.Sha256(Bits.ByteBits(Encode(b)))
  {
    hide JoinHex;
    hide Encode;
    hide Fips180.Sha256;
    EncodesToBytesOf(a);
    EncodesToBytesOf(b);
    var s, t := Fips180.Sha256(Bits.ByteBits(Encode(a))), Fips180.Sha256(Bits.ByteBits(Encode(b)));
    JoinHexDetermines(WordsOf(s), WordsOf(t));
    if WordsOf(s) == WordsOf(t) {
      assert WordsOf(s)[0] == WordsOf(t)[0] && WordsOf(s)[1] == WordsOf(t)[1] && WordsOf(s)[2] == WordsOf(t)[2];
      assert WordsOf(s)[3] == WordsOf(t)[3] && WordsOf(s)[4] == WordsOf(t)[4] && WordsOf(s)[5] == WordsOf(t)[5];
      assert WordsOf(s)[6] == WordsOf(t)[6] && WordsOf(s)[7] == WordsOf(t)[7];
    }
  }
}
