/** The UTF-8 encoder of `packages/contracts/src/digest.ts`, against RFC 3629. */
module Utf8 {
  import opened JsText
  import opened Arithmetic
  import opened Words
  import opened Wrappers

  type Point = p: int | 0 <= p < 0x11_0000

  predicate IsSurrogate(u: int) { 0xD800 <= u < 0xE000 }

  /** How many code units the string iterator consumes for its next character. */
  function Width(text: Text): (n: nat)
    requires text != []
    ensures 1 <= n <= |text|
  {
    if StartsWithPair(text) then 2 else 1
  }

  /** `codePointAt(0)`: a surrogate pair counts once, and a lone surrogate stands for itself. */
  function CodePointAt0(text: Text): Point
    requires text != []
  {
    if StartsWithPair(text) then (text[0] as int - 0xD800) * 0x400 + (text[1] as int - 0xDC00) + 0x1_0000
    else text[0]
  }

  /** The characters a `for ... of` loop over the string visits. */
  function CodePoints(text: Text): seq<Point> {
    if text == [] then [] else [CodePointAt0(text)] + CodePoints(text[Width(text)..])
  }

  // ---- The encoder ----------------------------------------------------------------------------

  /** What the loop pushes for one character, operator by operator. */
  function EncodePoint(point: Point): seq<int> {
    if point < 0x80 then [point]
    else if point < 0x800 then
      [JsBitwise(Or, 0xC0, JsSar(point, 6)), Continuation(point)]
    else if point < 0x1_0000 then
      [JsBitwise(Or, 0xE0, JsSar(point, 12)), Continuation(JsSar(point, 6)), Continuation(point)]
    else
      [JsBitwise(Or, 0xF0, JsSar(point, 18)), Continuation(JsSar(point, 12)), Continuation(JsSar(point, 6)),
       Continuation(point)]
  }

  function Continuation(bits: int): int { JsBitwise(Or, 0x80, JsBitwise(And, bits, 0x3F)) }

  function EncodePoints(points: seq<Point>): seq<int> {
    if points == [] then [] else EncodePoint(points[0]) + EncodePoints(points[1..])
  }

  function Encode(text: Text): seq<int> { EncodePoints(CodePoints(text)) }

  method Utf8Bytes(text: Text) returns (bytes: seq<int>)
    ensures bytes == Encode(text)
  {
    hide EncodePoint;
    hide CodePointAt0;
    bytes := [];
    var at := 0;
    while at < |text|
      invariant 0 <= at <= |text|
      invariant bytes + Encode(text[at..]) == Encode(text)
    {
      var rest := text[at..];
      var point := CodePointAt0(rest);
      assert rest[Width(rest)..] == text[at + Width(rest)..];
      assert CodePoints(rest)[1..] == CodePoints(rest[Width(rest)..]);
      bytes := bytes + EncodePoint(point);
      at := at + Width(rest);
    }
  }

  // ---- What the bit operations compute --------------------------------------------------------

  lemma SmallPowers()
    ensures Pow2(6) == 64 && Pow2(12) == 0x1000 && Pow2(18) == 0x4_0000
  {
    assert Pow2(9) == 512;
    assert Pow2(15) == 0x8000;
  }

  lemma SmallStays(op: BitOp, x: nat, y: nat)
    requires x < WORD / 2 && y < WORD / 2 && Combine(op, x, y, 32) < WORD / 2
    ensures JsBitwise(op, x, y) == Combine(op, x, y, 32)
  {
    SmallIsItself(x);
    SmallIsItself(y);
    SmallIsItself(Combine(op, x, y, 32));
  }

  lemma ContinuationIs(bits: nat)
    requires bits < 0x11_0000
    ensures Continuation(bits) == 0x80 + bits % 64
  {
    SmallPowers();
    Pow2Of32();
    AndMask(bits, 6, 32);
    SmallStays(And, bits, 0x3F);
    OrJoin(2, bits % 64, 6, 32);
    SmallStays(Or, 0x80, bits % 64);
  }

  lemma LeadIs(lead: nat, k: nat, field: nat)
    requires k < 8 && field < Pow2(k) && lead * Pow2(k) + field < 256
    ensures JsBitwise(Or, lead * Pow2(k), field) == lead * Pow2(k) + field
  {
    Pow2Of32();
    OrJoin(lead, field, k, 32);
    assert 0 <= lead * Pow2(k);
    SmallStays(Or, lead * Pow2(k), field);
  }

  lemma ShiftIs(p: Point, n: nat)
    requires n < 32
    ensures JsSar(p, n) == p / Pow2(n)
  {
  }

  /** Each character's bytes are the fields of RFC 3629, section 3. */
  lemma EncodePointIs(p: Point)
    ensures p < 0x80 ==> EncodePoint(p) == [p]
    ensures 0x80 <= p < 0x800 ==> EncodePoint(p) == [0xC0 + p / 64, 0x80 + p % 64]
    ensures 0x800 <= p < 0x1_0000 ==>
      EncodePoint(p) == [0xE0 + p / 0x1000, 0x80 + p / 64 % 64, 0x80 + p % 64]
    ensures 0x1_0000 <= p ==>
      EncodePoint(p) == [0xF0 + p / 0x4_0000, 0x80 + p / 0x1000 % 64, 0x80 + p / 64 % 64, 0x80 + p % 64]
  {
    if p < 0x80 {
    } else if p < 0x800 {
      TwoBytes(p);
    } else if p < 0x1_0000 {
      ThreeBytes(p);
    } else {
      FourBytes(p);
    }
  }

  lemma TwoBytes(p: Point)
    requires 0x80 <= p < 0x800
    ensures EncodePoint(p) == [0xC0 + p / 64, 0x80 + p % 64]
  {
    hide JsBitwise;
    hide Continuation;
    hide JsSar;
    SmallPowers();
    ShiftIs(p, 6);
    ContinuationIs(p);
    assert Pow2(5) == 32;
    LeadIs(6, 5, p / 64);
  }

  lemma ThreeBytes(p: Point)
    requires 0x800 <= p < 0x1_0000
    ensures EncodePoint(p) == [0xE0 + p / 0x1000, 0x80 + p / 64 % 64, 0x80 + p % 64]
  {
    hide JsBitwise;
    hide Continuation;
    hide JsSar;
    SmallPowers();
    ShiftIs(p, 6);
    ShiftIs(p, 12);
    ContinuationIs(p);
    ContinuationIs(p / 64);
    assert Pow2(4) == 16;
    LeadIs(14, 4, p / 0x1000);
  }

  lemma FourBytes(p: Point)
    requires 0x1_0000 <= p
    ensures EncodePoint(p) == [0xF0 + p / 0x4_0000, 0x80 + p / 0x1000 % 64, 0x80 + p / 64 % 64, 0x80 + p % 64]
  {
    hide JsBitwise;
    hide Continuation;
    hide JsSar;
    SmallPowers();
    ShiftIs(p, 6);
    ShiftIs(p, 12);
    ShiftIs(p, 18);
    ContinuationIs(p);
    ContinuationIs(p / 64);
    ContinuationIs(p / 0x1000);
    assert Pow2(3) == 8;
    LeadIs(30, 3, p / 0x4_0000);
  }

  // ---- The decoder ----------------------------------------------------------------------------

  predicate IsContinuation(bytes: seq<int>, i: nat) { i < |bytes| && 0x80 <= bytes[i] < 0xC0 }

  /** The length of the first character by RFC 3629, section 4; zero when the bytes start with none.
  With `surrogates`, the three-byte form is also accepted for U+D800 to U+DFFF. */
  function CharacterLength(bytes: seq<int>, surrogates: bool): (n: nat)
    ensures n <= |bytes|
  {
    if bytes == [] then 0
    else
      var b := bytes[0];
      if 0 <= b < 0x80 then 1
      else if 0xC2 <= b < 0xE0 && IsContinuation(bytes, 1) then 2
      else if 0xE0 <= b < 0xF0 && IsContinuation(bytes, 1) && IsContinuation(bytes, 2)
        && (b == 0xE0 ==> bytes[1] >= 0xA0) && (b == 0xED && !surrogates ==> bytes[1] < 0xA0) then 3
      else if 0xF0 <= b < 0xF5 && IsContinuation(bytes, 1) && IsContinuation(bytes, 2) && IsContinuation(bytes, 3)
        && (b == 0xF0 ==> bytes[1] >= 0x90) && (b == 0xF4 ==> bytes[1] < 0x90) then 4
      else 0
  }

  function CharacterValue(bytes: seq<int>, n: nat): int
    requires n <= |bytes|
  {
    if n == 1 then bytes[0]
    else if n == 2 then (bytes[0] - 0xC0) * 64 + (bytes[1] - 0x80)
    else if n == 3 then (bytes[0] - 0xE0) * 0x1000 + (bytes[1] - 0x80) * 64 + (bytes[2] - 0x80)
    else if n == 4 then
      (bytes[0] - 0xF0) * 0x4_0000 + (bytes[1] - 0x80) * 0x1000 + (bytes[2] - 0x80) * 64 + (bytes[3] - 0x80)
    else 0
  }

  function Decode(bytes: seq<int>, surrogates: bool): Option<seq<int>> {
    if bytes == [] then Some([])
    else
      var n := CharacterLength(bytes, surrogates);
      if n == 0 then None
      else
        match Decode(bytes[n..], surrogates)
        case None => None
        case Some(rest) => Some([CharacterValue(bytes, n)] + rest)
  }

  predicate LoneSurrogate(points: seq<int>) { exists i :: 0 <= i < |points| && IsSurrogate(points[i]) }

  lemma DecodesFirst(p: Point, rest: seq<int>, surrogates: bool)
    ensures EncodePoint(p) != []
    ensures IsSurrogate(p) && !surrogates ==> CharacterLength(EncodePoint(p) + rest, surrogates) == 0
    ensures !IsSurrogate(p) || surrogates ==>
      var n := |EncodePoint(p)|;
      && 0 < n == CharacterLength(EncodePoint(p) + rest, surrogates)
      && CharacterValue(EncodePoint(p) + rest, n) == p
      && (EncodePoint(p) + rest)[n..] == rest
  {
    hide EncodePoint;
    EncodePointIs(p);
    Fields(p);
    var lead := EncodePoint(p);
    var bytes := lead + rest;
    assert bytes[|lead|..] == rest;
    assert |lead| > 1 ==> bytes[1] == lead[1];
    assert |lead| > 2 ==> bytes[2] == lead[2];
    assert |lead| > 3 ==> bytes[3] == lead[3];
  }

  /** A character is the sum of its six-bit fields. */
  lemma Fields(p: Point)
    ensures p == p / 64 * 64 + p % 64
    ensures p == p / 0x1000 * 0x1000 + p / 64 % 64 * 64 + p % 64
    ensures p == p / 0x4_0000 * 0x4_0000 + p / 0x1000 % 64 * 0x1000 + p / 64 % 64 * 64 + p % 64
  {
    var q := p / 64;
    assert p / 0x1000 == q / 64;
    assert p / 0x4_0000 == p / 0x1000 / 64;
  }

  /** The encoding decodes to the characters it was made from; a strict decoder accepts it exactly when no
  surrogate stands alone. */
  lemma {:induction false} DecodeInvertsEncode(points: seq<Point>, surrogates: bool)
    ensures Decode(EncodePoints(points), surrogates)
         == if LoneSurrogate(points) && !surrogates then None else Some(points)
  {
    hide EncodePoint;
    hide CharacterLength;
    hide CharacterValue;
    if points != [] {
      var p, rest := points[0], points[1..];
      DecodesFirst(p, EncodePoints(rest), surrogates);
      DecodeInvertsEncode(rest, surrogates);
      LoneSurrogateOfCons(p, rest);
      assert points == [p] + rest;
    }
  }

  lemma LoneSurrogateOfCons(p: int, rest: seq<int>)
    ensures LoneSurrogate([p] + rest) == (IsSurrogate(p) || LoneSurrogate(rest))
  {
    var points := [p] + rest;
    assert points[0] == p;
    if LoneSurrogate(rest) {
      var i :| 0 <= i < |rest| && IsSurrogate(rest[i]);
      assert points[i + 1] == rest[i];
    }
  }

  /** The UTF-16 code units of one character. */
  function Units(p: Point): Text {
    if p < 0x1_0000 then [p] else [0xD800 + (p - 0x1_0000) / 0x400, 0xDC00 + (p - 0x1_0000) % 0x400]
  }

  function FromCodePoints(points: seq<Point>): Text {
    if points == [] then [] else Units(points[0]) + FromCodePoints(points[1..])
  }

  lemma {:induction false} FromCodePointsInverts(text: Text)
    ensures FromCodePoints(CodePoints(text)) == text
  {
    if text != [] {
      var n := Width(text);
      FromCodePointsInverts(text[n..]);
      assert CodePoints(text)[1..] == CodePoints(text[n..]);
      assert text == text[..n] + text[n..];
      assert Units(CodePointAt0(text)) == text[..n];
    }
  }

  /** No high surrogate is followed by a low one. */
  ghost predicate NoSplitPair(points: seq<Point>) {
    forall i :: 0 <= i < |points| - 1 ==> !(0xD800 <= points[i] < 0xDC00 && 0xDC00 <= points[i + 1] < 0xE000)
  }

  /** The characters visited are the only ones that spell the string in UTF-16 and leave no pair split. */
  lemma {:induction false} CodePointsAre(text: Text, points: seq<Point>)
    ensures points == CodePoints(text) <==> FromCodePoints(points) == text && NoSplitPair(points)
    decreases |text|
  {
    FromCodePointsInverts(text);
    PairsAreJoined(text);
    if FromCodePoints(points) == text && NoSplitPair(points) { SpellingIsUnique(text, points); }
  }

  lemma {:induction false} PairsAreJoined(text: Text)
    ensures NoSplitPair(CodePoints(text))
    decreases |text|
  {
    if text != [] {
      var rest := text[Width(text)..];
      PairsAreJoined(rest);
      var points := CodePoints(text);
      forall i | 0 <= i < |points| - 1
        ensures !(0xD800 <= points[i] < 0xDC00 && 0xDC00 <= points[i + 1] < 0xE000)
      {
        if i == 0 { assert rest != [] && points[1] == CodePointAt0(rest); }
        else { assert points[i] == CodePoints(rest)[i - 1] && points[i + 1] == CodePoints(rest)[i]; }
      }
    }
  }

  lemma {:induction false} SpellingIsUnique(text: Text, points: seq<Point>)
    requires FromCodePoints(points) == text && NoSplitPair(points)
    ensures points == CodePoints(text)
    decreases |points|
  {
    if points != [] {
      var n, rest := |Units(points[0])|, FromCodePoints(points[1..]);
      assert text == Units(points[0]) + rest && text[n..] == rest;
      FirstSpelled(text, points);
      assert NoSplitPair(points[1..]) by {
        forall i | 0 <= i < |points[1..]| - 1
          ensures !(0xD800 <= points[1..][i] < 0xDC00 && 0xDC00 <= points[1..][i + 1] < 0xE000)
        {
          assert points[1..][i] == points[i + 1] && points[1..][i + 1] == points[i + 2];
        }
      }
      SpellingIsUnique(rest, points[1..]);
      assert points == [points[0]] + points[1..];
    }
  }

  lemma FirstSpelled(text: Text, points: seq<Point>)
    requires points != [] && FromCodePoints(points) == text && NoSplitPair(points)
    ensures text != [] && CodePointAt0(text) == points[0] && Width(text) == |Units(points[0])|
  {
    var p := points[0];
    if p < 0x1_0000 && |text| >= 2 {
      assert |points| > 1 && text[1] == Units(points[1])[0];
    }
  }

  /** No two strings share an encoding, lone surrogates included. */
  lemma EncodeInjective(a: Text, b: Text)
    requires Encode(a) == Encode(b)
    ensures a == b
  {
    DecodeInvertsEncode(CodePoints(a), true);
    DecodeInvertsEncode(CodePoints(b), true);
    FromCodePointsInverts(a);
    FromCodePointsInverts(b);
  }

  /** Every element pushed is a byte. */
  lemma {:induction false} EncodesToBytes(points: seq<Point>)
    ensures AllBytes(EncodePoints(points))
  {
    hide EncodePoint;
    if points != [] {
      EncodePointIs(points[0]);
      EncodesToBytes(points[1..]);
    }
  }
}
