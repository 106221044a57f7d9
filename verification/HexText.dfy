/** Lowercase hexadecimal text. */
module HexText {
  import opened Arithmetic
  import opened JsText
  import opened Wrappers

  function HexDigit(d: int): CodeUnit
    requires 0 <= d < 16
  {
    if d < 10 then 48 + d else 87 + d
  }

  /** `Number.prototype.toString(16)`. */
  function ToString16(n: nat): (t: Text)
    ensures t != []
  {
    if n < 16 then [HexDigit(n)] else ToString16(n / 16) + [HexDigit(n % 16)]
  }

  /** `padStart(width, "0")`. */
  function PadStart(t: Text, width: nat): Text {
    if |t| >= width then t else seq(width - |t|, _ => 48) + t
  }

  /** Exactly `width` hexadecimal digits, most significant first. */
  function HexDigits(n: nat, width: nat): (t: Text)
    ensures |t| == width
  {
    if width == 0 then [] else HexDigits(n / 16, width - 1) + [HexDigit(n % 16)]
  }

  lemma {:induction false} PaddedHexIsDigits(n: nat, width: nat)
    requires n < Pow2(4 * width) && width > 0
    ensures PadStart(ToString16(n), width) == HexDigits(n, width)
  {
    if n < 16 {
      HexOfZero(width - 1);
    } else {
      SixteenTimes(4 * (width - 1));
      PaddedHexIsDigits(n / 16, width - 1);
    }
  }

  lemma SixteenTimes(k: nat)
    ensures Pow2(k + 4) == 16 * Pow2(k)
  {
    assert Pow2(k + 4) == 2 * Pow2(k + 3);
    assert Pow2(k + 2) == 2 * Pow2(k + 1);
  }

  lemma {:induction false} HexOfZero(width: nat)
    ensures HexDigits(0, width) == seq(width, _ => 48)
  {
    if width > 0 { HexOfZero(width - 1); }
  }

  // ---- What the digits say --------------------------------------------------------------------

  const HEX_ALPHABET := "0123456789abcdef"

  /** The place of a unit in the alphabet, which is the value of the digit; -1 for anything else. */
  function DigitValue(u: CodeUnit): (d: int)
    ensures -1 <= d < 16
    ensures d >= 0 ==> HEX_ALPHABET[d] as int == u
  {
    PlaceFrom(u, 0)
  }

  function PlaceFrom(u: CodeUnit, k: nat): (d: int)
    requires k <= 16
    ensures d == -1 || (k <= d < 16 && HEX_ALPHABET[d] as int == u)
    decreases 16 - k
  {
    if k == 16 then -1 else if HEX_ALPHABET[k] as int == u then k else PlaceFrom(u, k + 1)
  }

  /** The number a hexadecimal text denotes, most significant digit first; none if a unit is no digit. */
  function ReadHex(t: Text): Option<nat> {
    if t == [] then Some(0)
    else
      var rest, d := ReadHex(t[..|t| - 1]), DigitValue(t[|t| - 1]);
      if rest.None? || d < 0 then None else Some(16 * rest.value + d)
  }

  lemma HexDigitReads(d: int)
    requires 0 <= d < 16
    ensures DigitValue(HexDigit(d)) == d
  {
    var u := HexDigit(d);
    assert forall i :: 0 <= i < 16 && HEX_ALPHABET[i] as int == u ==> i == d;
    PlaceIs(u, d, 0);
  }

  lemma {:induction false} PlaceIs(u: CodeUnit, d: nat, k: nat)
    requires k <= d < 16 && HEX_ALPHABET[d] as int == u
    requires forall i :: 0 <= i < 16 && HEX_ALPHABET[i] as int == u ==> i == d
    ensures PlaceFrom(u, k) == d
    decreases 16 - k
  {
    if k < d { PlaceIs(u, d, k + 1); }
  }

  /** Digits written with enough room are read back. */
  lemma {:induction false} ReadHexOfDigits(n: nat, width: nat)
    requires n < Pow2(4 * width)
    ensures ReadHex(HexDigits(n, width)) == Some(n)
  {
    if width == 0 {
      assert Pow2(0) == 1;
    } else {
      hide HexDigit, DigitValue, HexDigits, ReadHex;
      SixteenTimes(4 * (width - 1));
      ReadHexOfDigits(n / 16, width - 1);
      OneMoreDigit(n, width);
    }
  }

  lemma OneMoreDigit(n: nat, width: nat)
    requires width > 0 && ReadHex(HexDigits(n / 16, width - 1)) == Some(n / 16)
    ensures ReadHex(HexDigits(n, width)) == Some(n)
  {
    hide HexDigit, DigitValue;
    HexDigitReads(n % 16);
    var t := HexDigits(n, width);
    assert t[..width - 1] == HexDigits(n / 16, width - 1) && t[width - 1] == HexDigit(n % 16);
    hide HexDigits;
    assert 16 * (n / 16) + n % 16 == n;
  }

  predicate IsLowerHex(t: Text) { forall i :: 0 <= i < |t| ==> 48 <= t[i] <= 57 || 97 <= t[i] <= 102 }

  /** The digits of a number are lowercase and determine it. */
  lemma {:induction false} HexDigitsDetermine(m: nat, n: nat, width: nat)
    requires m < Pow2(4 * width) && n < Pow2(4 * width)
    ensures IsLowerHex(HexDigits(n, width))
    ensures HexDigits(m, width) == HexDigits(n, width) ==> m == n
  {
    if width == 0 {
      assert Pow2(0) == 1;
    } else {
      SixteenTimes(4 * (width - 1));
      HexDigitsDetermine(m / 16, n / 16, width - 1);
      var s, t := HexDigits(m, width), HexDigits(n, width);
      assert s[..width - 1] == HexDigits(m / 16, width - 1) && t[..width - 1] == HexDigits(n / 16, width - 1);
      assert s[width - 1] == HexDigit(m % 16) && t[width - 1] == HexDigit(n % 16);
    }
  }
}
