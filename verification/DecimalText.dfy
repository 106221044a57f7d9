/** Decimal text: fixed runs of digits, and the text of a natural number. */
module DecimalText {
  import opened JsText

  function Pow10(w: nat): (p: nat)
    ensures p > 0
  {
    if w == 0 then 1 else 10 * Pow10(w - 1)
  }

  /** The last `width` decimal digits of `n`. */
  function Digits(n: nat, width: nat): (t: Text)
    ensures |t| == width
    ensures forall i :: 0 <= i < width ==> 48 <= t[i] <= 57
  {
    if width == 0 then [] else Digits(n / 10, width - 1) + [48 + n % 10]
  }

  /** The number a run of decimal digits denotes. */
  function Number(t: Text): (n: nat)
    requires forall i :: 0 <= i < |t| ==> 48 <= t[i] <= 57
    ensures n < Pow10(|t|)
  {
    if t == [] then 0 else 10 * Number(t[..|t| - 1]) + (t[|t| - 1] - 48)
  }

  lemma {:induction false} NumberOfDigits(n: nat, width: nat)
    requires n < Pow10(width)
    ensures Number(Digits(n, width)) == n
  {
    if width > 0 {
      NumberOfDigits(n / 10, width - 1);
      assert Digits(n, width)[..width - 1] == Digits(n / 10, width - 1);
    }
  }

  lemma LastDigit(n: nat, d: nat, width: nat)
    requires d < 10
    ensures Digits(10 * n + d, width + 1) == Digits(n, width) + [48 + d]
  {
    assert (10 * n + d) / 10 == n && (10 * n + d) % 10 == d;
  }

  lemma NumberOfLast(t: Text)
    requires t != [] && forall i :: 0 <= i < |t| ==> 48 <= t[i] <= 57
    ensures Number(t) == 10 * Number(t[..|t| - 1]) + (t[|t| - 1] - 48)
  {
  }

  lemma {:induction false} DigitsOfNumber(t: Text)
    requires forall i :: 0 <= i < |t| ==> 48 <= t[i] <= 57
    ensures Digits(Number(t), |t|) == t
  {
    if t != [] {
      hide Digits, Number, Pow10;
      var rest, last := t[..|t| - 1], t[|t| - 1];
      DigitsOfNumber(rest);
      LastDigit(Number(rest), last - 48, |rest|);
      NumberOfLast(t);
      assert t == rest + [last];
    }
  }

  predicate AllDigits(t: Text) { forall i :: 0 <= i < |t| ==> 48 <= t[i] <= 57 }

  /** `String(n)`: no leading zero. */
  function Decimal(n: nat): (t: Text)
    ensures t != [] && AllDigits(t)
  {
    if n < 10 then [48 + n] else Decimal(n / 10) + [48 + n % 10]
  }

  lemma {:induction false} NumberOfDecimal(n: nat)
    ensures Number(Decimal(n)) == n
  {
    if n < 10 {
      assert Decimal(n)[..0] == [];
    } else {
      NumberOfDecimal(n / 10);
      assert Decimal(n)[..|Decimal(n)| - 1] == Decimal(n / 10);
    }
  }
}
