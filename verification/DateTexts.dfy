/** Calendar dates as text: the first ten code units of `toISOString`, and their order. */
module DateTexts {
  import opened JsText
  import opened Calendar
  import opened DecimalText

  const HYPHEN: CodeUnit := 45
  const PLUS: CodeUnit := 43

  /** `toISOString().slice(0, 10)`. Beyond four-digit years the text carries a sign and six digits of year, so
  the slice ends with the month. */
  function Iso10(y: int, m: Month, d: int): (t: Text)
    requires d >= 0
    ensures |t| == 10
  {
    if 0 <= y <= 9999 then Digits(y, 4) + [HYPHEN] + Digits(m + 1, 2) + [HYPHEN] + Digits(d, 2)
    else [if y < 0 then HYPHEN else PLUS] + Digits(if y < 0 then -y else y, 6) + [HYPHEN] + Digits(m + 1, 2)
  }

  // ---- Order ----------------------------------------------------------------------------------

  lemma {:induction false} AtMostOfConcat(x: Text, y: Text, s: Text, t: Text)
    requires |x| == |y|
    ensures AtMost(x + s, y + t) <==> if x == y then AtMost(s, t) else AtMost(x, y)
  {
    if x == [] {
      assert x + s == s && y + t == t;
    } else {
      assert (x + s)[1..] == x[1..] + s && (y + t)[1..] == y[1..] + t;
      AtMostOfConcat(x[1..], y[1..], s, t);
      assert x == [x[0]] + x[1..] && y == [y[0]] + y[1..];
    }
  }

  lemma DigitsDetermine(a: nat, b: nat, width: nat)
    requires a < Pow10(width) && b < Pow10(width)
    ensures Digits(a, width) == Digits(b, width) <==> a == b
  {
    NumberOfDigits(a, width);
    NumberOfDigits(b, width);
  }

  lemma LastDigitDecides(a: nat, b: nat)
    ensures a <= b <==> if a / 10 == b / 10 then a % 10 <= b % 10 else a / 10 <= b / 10
  {
  }

  lemma UnitOrder(p: CodeUnit, q: CodeUnit)
    ensures AtMost([p], [q]) <==> p <= q
  {
  }

  lemma {:induction false} DigitsOrder(a: nat, b: nat, width: nat)
    requires a < Pow10(width) && b < Pow10(width)
    ensures AtMost(Digits(a, width), Digits(b, width)) <==> a <= b
    ensures Digits(a, width) == Digits(b, width) <==> a == b
  {
    hide AtMost, Number;
    DigitsDetermine(a, b, width);
    if width == 0 {
      AtMostReflexive([]);
    } else {
      DigitsOrder(a / 10, b / 10, width - 1);
      AtMostOfConcat(Digits(a / 10, width - 1), Digits(b / 10, width - 1), [48 + a % 10], [48 + b % 10]);
      UnitOrder(48 + a % 10, 48 + b % 10);
      LastDigitDecides(a, b);
    }
  }

  /** Comparing two four-digit dates as strings compares them as dates. */
  lemma TextOrderIsFieldOrder(y: int, m: Month, d: int, y': int, m': Month, d': int)
    requires 0 <= y <= 9999 && 0 <= y' <= 9999 && 0 <= d < 100 && 0 <= d' < 100
    ensures AtMost(Iso10(y, m, d), Iso10(y', m', d')) <==> NotAfter(y, m, d, y', m', d')
  {
    hide Digits;
    Tens();
    DigitsOrder(y, y', 4);
    DigitsOrder(m + 1, m' + 1, 2);
    DigitsOrder(d, d', 2);
    var h: Text := [HYPHEN];
    var s, s' := Digits(m + 1, 2) + (h + Digits(d, 2)), Digits(m' + 1, 2) + (h + Digits(d', 2));
    assert Iso10(y, m, d) == Digits(y, 4) + (h + s) && Iso10(y', m', d') == Digits(y', 4) + (h + s');
    AtMostOfConcat(Digits(y, 4), Digits(y', 4), h + s, h + s');
    AtMostOfConcat(h, h, s, s');
    AtMostOfConcat(Digits(m + 1, 2), Digits(m' + 1, 2), h + Digits(d, 2), h + Digits(d', 2));
    AtMostOfConcat(h, h, Digits(d, 2), Digits(d', 2));
  }

  lemma Tens()
    ensures Pow10(2) == 100 && Pow10(4) == 10000
  {
    assert Pow10(3) == 1000;
  }

  /** A signed year sorts before every four-digit one, whichever its sign. */
  lemma SignedSortsFirst(y: int, m: Month, d: int, y': int, m': Month, d': int)
    requires !(0 <= y <= 9999) && 0 <= y' <= 9999 && d >= 0 && d' >= 0
    ensures Less(Iso10(y, m, d), Iso10(y', m', d'))
  {
    hide Digits;
    assert Iso10(y, m, d)[0] < 48 <= Iso10(y', m', d')[0];
  }

  /** Signed years compare by their absolute value, and then by the month. */
  lemma SignedOrder(y: int, m: Month, d: int, y': int, m': Month, d': int)
    requires (9999 < y < 1000000 && 9999 < y' < 1000000) || (-1000000 < y < 0 && -1000000 < y' < 0)
    requires d >= 0 && d' >= 0
    ensures AtMost(Iso10(y, m, d), Iso10(y', m', d')) <==> (if y == y' then m <= m' else (y < y' <==> y > 0))
  {
    hide Digits, AtMost;
    Tens();
    assert Pow10(6) == 1000000 by { assert Pow10(5) == 100000; }
    var a, b := if y < 0 then -y else y, if y' < 0 then -y' else y';
    DigitsOrder(a, b, 6);
    DigitsOrder(m + 1, m' + 1, 2);
    var sign, h: Text := [if y < 0 then HYPHEN else PLUS], [HYPHEN];
    var s, s' := Digits(m + 1, 2), Digits(m' + 1, 2);
    assert Iso10(y, m, d) == sign + (Digits(a, 6) + (h + s)) && Iso10(y', m', d') == sign + (Digits(b, 6) + (h + s'));
    AtMostOfConcat(sign, sign, Digits(a, 6) + (h + s), Digits(b, 6) + (h + s'));
    AtMostOfConcat(Digits(a, 6), Digits(b, 6), h + s, h + s');
    AtMostOfConcat(h, h, s, s');
  }

  /** Beyond four digits a date text is a sign, six digits of year, a hyphen and the month. */
  lemma SignedText(y: int, m: Month, d: int)
    requires d >= 0 && (9999 < y < 1000000 || -1000000 < y < 0)
    ensures var t := Iso10(y, m, d);
      && t[0] == (if y < 0 then 0x2D else 0x2B) && t[7] == 0x2D
      && AllDigits(t[1..7]) && Number(t[1..7]) == (if y < 0 then -y else y)
      && AllDigits(t[8..10]) && Number(t[8..10]) == m + 1
  {
    hide Digits, Number;
    Tens();
    assert Pow10(6) == 1000000 by { assert Pow10(5) == 100000; }
    var a, t := if y < 0 then -y else y, Iso10(y, m, d);
    NumberOfDigits(a, 6);
    NumberOfDigits(m + 1, 2);
    assert t[1..7] == Digits(a, 6) && t[8..10] == Digits(m + 1, 2);
  }

  // ---- Validity -------------------------------------------------------------------------------

  /** The pattern of four digits, two and two. */
  predicate MatchesPattern(t: Text) {
    |t| == 10 && t[4] == t[7] == 0x2D
    && forall i :: 0 <= i < 10 && i != 4 && i != 7 ==> 48 <= t[i] <= 57
  }

  function YearField(t: Text): int
    requires MatchesPattern(t)
  {
    Number(t[0..4])
  }

  function MonthField(t: Text): int
    requires MatchesPattern(t)
  {
    Number(t[5..7]) - 1
  }

  function DayField(t: Text): int
    requires MatchesPattern(t)
  {
    Number(t[8..10])
  }

  /** A text of the pattern is the date text of its own fields. */
  lemma PatternIsIso(t: Text)
    requires MatchesPattern(t) && 0 <= MonthField(t) < 12
    ensures 0 <= YearField(t) <= 9999 && 0 <= DayField(t) < 100
    ensures t == Iso10(YearField(t), MonthField(t), DayField(t))
  {
    hide Digits;
    Tens();
    DigitsOfNumber(t[0..4]);
    DigitsOfNumber(t[5..7]);
    DigitsOfNumber(t[8..10]);
    assert t == t[0..4] + [HYPHEN] + t[5..7] + [HYPHEN] + t[8..10];
  }

  lemma IsoMatchesPattern(y: int, m: Month, d: int)
    requires 0 <= y <= 9999 && 0 <= d < 100
    ensures MatchesPattern(Iso10(y, m, d))
    ensures YearField(Iso10(y, m, d)) == y && MonthField(Iso10(y, m, d)) == m && DayField(Iso10(y, m, d)) == d
  {
    hide Digits;
    hide Number;
    Tens();
    NumberOfDigits(y, 4);
    NumberOfDigits(m + 1, 2);
    NumberOfDigits(d, 2);
    var t := Iso10(y, m, d);
    assert t[0..4] == Digits(y, 4) && t[5..7] == Digits(m + 1, 2) && t[8..10] == Digits(d, 2);
  }
}
