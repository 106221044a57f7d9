/** JavaScript strings: sequences of UTF-16 code units, compared unit by unit. */
module JsText {

  type CodeUnit = u: int | 0 <= u < 0x1_0000

  type Text = seq<CodeUnit>

  /** An ASCII literal as a JavaScript string. */
  function Ascii(s: string): (t: Text)
    requires forall i :: 0 <= i < |s| ==> s[i] as int < 128
    ensures |t| == |s| && forall i :: 0 <= i < |s| ==> t[i] == s[i] as int
  {
    seq(|s|, i requires 0 <= i < |s| => s[i] as int)
  }

  predicate IsHigh(u: int) { 0xD800 <= u < 0xDC00 }

  predicate IsLow(u: int) { 0xDC00 <= u < 0xE000 }

  /** Whether a text starts with two units that make up one character. */
  predicate StartsWithPair(t: Text) { |t| >= 2 && IsHigh(t[0]) && IsLow(t[1]) }

  /** JavaScript's `a <= b` on strings. */
  predicate AtMost(a: Text, b: Text) {
    a == [] || (b != [] && (a[0] < b[0] || (a[0] == b[0] && AtMost(a[1..], b[1..]))))
  }

  /** JavaScript's `a < b` on strings. */
  predicate Less(a: Text, b: Text) { a != b && AtMost(a, b) }

  lemma {:induction false} AtMostReflexive(a: Text)
    ensures AtMost(a, a)
  {
    if a != [] { AtMostReflexive(a[1..]); }
  }

  /** A text comes before or on another exactly when it is a prefix of it or has the smaller unit where they first differ. */
  lemma {:induction false} AtMostIs(a: Text, b: Text)
    ensures AtMost(a, b) <==> a <= b || exists k :: FirstDiffer(a, b, k) && a[k] < b[k]
  {
    if a != [] && b != [] {
      var s, t := a[1..], b[1..];
      AtMostIs(s, t);
      assert a == [a[0]] + s && b == [b[0]] + t;
      if a[0] == b[0] {
        forall k | 0 < k ensures FirstDiffer(a, b, k) <==> FirstDiffer(s, t, k - 1) {
          if FirstDiffer(s, t, k - 1) { assert a[..k] == [a[0]] + s[..k - 1] && b[..k] == [b[0]] + t[..k - 1]; }
          if FirstDiffer(a, b, k) { assert s[..k - 1] == a[..k][1..] && t[..k - 1] == b[..k][1..]; }
        }
        assert a <= b <==> s <= t;
        if k :| FirstDiffer(s, t, k) && s[k] < t[k] { assert FirstDiffer(a, b, k + 1); }
        if k :| FirstDiffer(a, b, k) && a[k] < b[k] { assert k > 0 && FirstDiffer(s, t, k - 1); }
      } else {
        assert FirstDiffer(a, b, 0);
        forall k: nat | k > 0 && k < |a| && k < |b| ensures a[..k] != b[..k] { assert a[..k][0] == a[0] && b[..k][0] == b[0]; }
      }
    }
  }

  ghost predicate FirstDiffer(a: Text, b: Text, k: int) {
    0 <= k < |a| && k < |b| && a[..k] == b[..k] && a[k] != b[k]
  }

  lemma {:induction false} AtMostTotal(a: Text, b: Text)
    ensures AtMost(a, b) || AtMost(b, a)
  {
    if a != [] && b != [] { AtMostTotal(a[1..], b[1..]); }
  }

  lemma {:induction false} AtMostAntisymmetric(a: Text, b: Text)
    requires AtMost(a, b) && AtMost(b, a)
    ensures a == b
  {
    if a != [] {
      AtMostAntisymmetric(a[1..], b[1..]);
      assert a == [a[0]] + a[1..] && b == [b[0]] + b[1..];
    }
  }

  lemma {:induction false} AtMostTransitive(a: Text, b: Text, c: Text)
    requires AtMost(a, b) && AtMost(b, c)
    ensures AtMost(a, c)
  {
    if a != [] && a[0] == b[0] == c[0] { AtMostTransitive(a[1..], b[1..], c[1..]); }
  }
}
