/** A reader of JSON text written from the grammar of RFC 8259, and that it returns what was printed. */
module JsonReader {
  import opened Arithmetic
  import opened HexText
  import opened JsText
  import opened Wrappers
  import opened JsonText

  /** What was read from the front of a text, and what follows it. */
  datatype Reading<T> = Done(value: T, rest: Text) | Malformed

  /** Section 2: space, tab, line feed and carriage return between tokens mean nothing. */
  function SkipSpace(t: Text): (r: Text)
    ensures |r| <= |t|
  {
    if t != [] && (t[0] == 0x20 || t[0] == 0x09 || t[0] == 0x0A || t[0] == 0x0D) then SkipSpace(t[1..]) else t
  }

  // ---- Section 7: strings ---------------------------------------------------------------------

  /** The unit a two-unit escape stands for. */
  function ShortEscape(u: CodeUnit): Option<CodeUnit> {
    if u == 0x22 || u == 0x5C || u == 0x2F then Some(u)
    else if u == 0x62 then Some(0x08)
    else if u == 0x66 then Some(0x0C)
    else if u == 0x6E then Some(0x0A)
    else if u == 0x72 then Some(0x0D)
    else if u == 0x74 then Some(0x09)
    else None
  }

  /** A hexadecimal digit of either case. */
  function HexUnit(u: CodeUnit): int { DigitValue(if 0x41 <= u <= 0x46 then u + 0x20 else u) }

  /** The unit that four hexadecimal digits stand for. */
  function FourHex(t: Text): Option<CodeUnit>
    requires |t| == 4
  {
    var a, b, c, d := HexUnit(t[0]), HexUnit(t[1]), HexUnit(t[2]), HexUnit(t[3]);
    if a < 0 || b < 0 || c < 0 || d < 0 then None else Some(a * 0x1000 + b * 0x100 + c * 0x10 + d)
  }

  function Prepend(u: CodeUnit, r: Reading<Text>): Reading<Text> {
    match r
    case Done(value, rest) => Done([u] + value, rest)
    case Malformed => Malformed
  }

  /** The characters of a string after its opening quote. */
  function ReadString(t: Text): (r: Reading<Text>)
    ensures r.Done? ==> |r.rest| < |t|
    decreases |t|
  {
    if t == [] || t[0] < 0x20 then Malformed
    else if t[0] == 0x22 then Done([], t[1..])
    else if t[0] != 0x5C then Prepend(t[0], ReadString(t[1..]))
    else if |t| >= 2 && ShortEscape(t[1]).Some? then Prepend(ShortEscape(t[1]).value, ReadString(t[2..]))
    else if |t| >= 6 && t[1] == 0x75 && FourHex(t[2..6]).Some? then Prepend(FourHex(t[2..6]).value, ReadString(t[6..]))
    else Malformed
  }

  // ---- Section 6: numbers ---------------------------------------------------------------------

  predicate IsDigit(u: CodeUnit) { 0x30 <= u <= 0x39 }

  function DigitRun(t: Text): (n: nat)
    ensures n <= |t|
  {
    if t != [] && IsDigit(t[0]) then 1 + DigitRun(t[1..]) else 0
  }

  /** An exponent, or nothing. */
  predicate IsExponent(t: Text) {
    t == [] ||
    ((t[0] == 0x65 || t[0] == 0x45)
     && var digits := if |t| > 1 && (t[1] == 0x2B || t[1] == 0x2D) then t[2..] else t[1..];
     digits != [] && DigitRun(digits) == |digits|)
  }

  /** A fraction or nothing, and then an exponent or nothing. */
  predicate IsFraction(t: Text) {
    if t != [] && t[0] == 0x2E then var n := DigitRun(t[1..]); n > 0 && IsExponent(t[1 + n..]) else IsExponent(t)
  }

  /** A number: no leading zero, and a digit on both sides of the point. */
  predicate IsNumber(t: Text) {
    var u := if t != [] && t[0] == 0x2D then t[1..] else t;
    u != [] && if u[0] == 0x30 then IsFraction(u[1..]) else IsDigit(u[0]) && IsFraction(u[DigitRun(u)..])
  }

  /** How far the units a number is made of go. */
  function NumberRun(t: Text): (n: nat)
    ensures n <= |t|
  {
    if t != [] && (IsDigit(t[0]) || t[0] == 0x2B || t[0] == 0x2D || t[0] == 0x2E || t[0] == 0x45 || t[0] == 0x65)
    then 1 + NumberRun(t[1..]) else 0
  }

  // ---- Sections 3 to 5: values, objects, arrays -----------------------------------------------

  predicate StartsWith(t: Text, word: Text) { |word| <= |t| && t[..|word|] == word }

  function ReadValue(text: Text): (r: Reading<Json>)
    ensures r.Done? ==> |r.rest| < |text|
    decreases |text|, 0
  {
    var t := SkipSpace(text);
    if t == [] then Malformed
    else if t[0] == 0x22 then ReadText(t)
    else if t[0] == 0x5B then
      var u := SkipSpace(t[1..]);
      if u != [] && u[0] == 0x5D then Done(Arr([]), u[1..])
      else
        var items := ReadItems(u);
        if items.Malformed? then Malformed else Done(Arr(items.value), items.rest)
    else if t[0] == 0x7B then
      var u := SkipSpace(t[1..]);
      if u != [] && u[0] == 0x7D then Done(Obj([]), u[1..])
      else
        var fields := ReadFields(u);
        if fields.Malformed? then Malformed else Done(Obj(fields.value), fields.rest)
    else ReadWord(t)
  }

  function ReadText(t: Text): (r: Reading<Json>)
    requires t != []
    ensures r.Done? ==> |r.rest| < |t|
  {
    var s := ReadString(t[1..]);
    if s.Malformed? then Malformed else Done(Str(s.value), s.rest)
  }

  /** The three literal names, or a number. */
  function ReadWord(t: Text): (r: Reading<Json>)
    ensures r.Done? ==> |r.rest| < |t|
  {
    if StartsWith(t, Ascii("null")) then Done(Null, t[4..])
    else if StartsWith(t, Ascii("true")) then Done(Bool(true), t[4..])
    else if StartsWith(t, Ascii("false")) then Done(Bool(false), t[5..])
    else
      var n := NumberRun(t);
      if n > 0 && IsNumber(t[..n]) then Done(Number(t[..n]), t[n..]) else Malformed
  }

  /** The elements of an array that is not empty, with its closing bracket. */
  function ReadItems(t: Text): (r: Reading<seq<Json>>)
    ensures r.Done? ==> |r.rest| < |t|
    decreases |t|, 1
  {
    var first := ReadValue(t);
    if first.Malformed? then Malformed
    else
      var u := SkipSpace(first.rest);
      if u == [] then Malformed
      else if u[0] == 0x5D then Done([first.value], u[1..])
      else if u[0] != 0x2C then Malformed
      else
        var others := ReadItems(u[1..]);
        if others.Malformed? then Malformed else Done([first.value] + others.value, others.rest)
  }

  /** A name, a colon and a value. */
  function ReadField(text: Text): (r: Reading<Field>)
    ensures r.Done? ==> |r.rest| < |text|
    decreases |text|, 1
  {
    var t := SkipSpace(text);
    if t == [] || t[0] != 0x22 then Malformed
    else
      var key := ReadString(t[1..]);
      if key.Malformed? then Malformed
      else
        var u := SkipSpace(key.rest);
        if u == [] || u[0] != 0x3A then Malformed
        else
          var value := ReadValue(u[1..]);
          if value.Malformed? then Malformed else Done(Field(key.value, value.value), value.rest)
  }

  /** The fields of an object that is not empty, with its closing bracket. */
  function ReadFields(t: Text): (r: Reading<seq<Field>>)
    ensures r.Done? ==> |r.rest| < |t|
    decreases |t|, 2
  {
    var first := ReadField(t);
    if first.Malformed? then Malformed
    else
      var u := SkipSpace(first.rest);
      if u == [] then Malformed
      else if u[0] == 0x7D then Done([first.value], u[1..])
      else if u[0] != 0x2C then Malformed
      else
        var others := ReadFields(u[1..]);
        if others.Malformed? then Malformed else Done([first.value] + others.value, others.rest)
  }

  /** A JSON text is one value. */
  function ReadDocument(text: Text): Option<Json> {
    var r := ReadValue(text);
    if r.Done? && SkipSpace(r.rest) == [] then Some(r.value) else None
  }

  // ---- Strings are read back ------------------------------------------------------------------

  lemma FourDigits(n: nat)
    ensures var a, b, c := n / 16, n / 16 / 16, n / 16 / 16 / 16;
      HexDigits(n, 4) == [HexDigit(c % 16), HexDigit(b % 16), HexDigit(a % 16), HexDigit(n % 16)]
  {
    var a, b, c := n / 16, n / 16 / 16, n / 16 / 16 / 16;
    hide HexDigit;
    assert HexDigits(c, 1) == [HexDigit(c % 16)];
    assert HexDigits(b, 2) == HexDigits(c, 1) + [HexDigit(b % 16)];
    assert HexDigits(a, 3) == HexDigits(b, 2) + [HexDigit(a % 16)];
    assert HexDigits(n, 4) == HexDigits(a, 3) + [HexDigit(n % 16)];
  }

  lemma FourHexOf(u: CodeUnit)
    ensures |HexDigits(u, 4)| == 4 && FourHex(HexDigits(u, 4)) == Some(u)
  {
    hide HexDigits, HexDigit, HexUnit, DigitValue;
    FourDigits(u);
    Recomposed(u);
    var a, b, c := u / 16, u / 16 / 16, u / 16 / 16 / 16;
    HexUnitOf(c % 16);
    HexUnitOf(b % 16);
    HexUnitOf(a % 16);
    HexUnitOf(u % 16);
  }

  lemma Recomposed(u: CodeUnit)
    ensures var a, b, c := u / 16, u / 16 / 16, u / 16 / 16 / 16;
      c % 16 * 0x1000 + b % 16 * 0x100 + a % 16 * 0x10 + u % 16 == u
  {
    assert u / 16 / 16 / 16 < 16;
  }

  lemma HexUnitOf(d: int)
    requires 0 <= d < 16
    ensures HexUnit(HexDigit(d)) == d
  {
    HexDigitReads(d);
    hide DigitValue;
  }

  lemma EscapeReads(u: CodeUnit, r: Text)
    ensures ReadString(Escape(u) + r) == Prepend(u, ReadString(r))
  {
    var e := Escape(u);
    hide HexDigits, FourHex, DigitValue;
    assert (e + r)[0] == e[0] && (|e| > 1 ==> (e + r)[1] == e[1]);
    assert (e + r)[|e|..] == r;
    if e == UnicodeEscape(u) && |e| == 6 {
      FourHexOf(u);
      assert (e + r)[2..6] == HexDigits(u, 4);
    }
  }

  lemma {:induction false} QuotedReads(t: Text, r: Text)
    ensures ReadString(Quoted(t) + r) == Done(t, r)
    decreases |t|
  {
    if t == [] {
      assert (Quoted(t) + r)[1..] == r;
    } else {
      hide Quoted, ReadString, Escape;
      var n := if StartsWithPair(t) then 2 else 1;
      QuotedReads(t[n..], r);
      if n == 2 { PairReads(t, r); } else { CharacterReads(t, r); }
      assert t == [t[0]] + t[1..];
    }
  }

  lemma PairReads(t: Text, r: Text)
    requires StartsWithPair(t)
    ensures ReadString(Quoted(t) + r) == Prepend(t[0], Prepend(t[1], ReadString(Quoted(t[2..]) + r)))
    ensures t[1..] == [t[1]] + t[2..]
  {
    var rest := Quoted(t[2..]);
    assert Quoted(t) == t[..2] + rest;
    hide Quoted, ReadString;
    assert t[..2] + rest + r == [t[0]] + ([t[1]] + (rest + r));
    ReadUnit(t[0], [t[1]] + (rest + r));
    ReadUnit(t[1], rest + r);
  }

  lemma CharacterReads(t: Text, r: Text)
    requires t != [] && !StartsWithPair(t)
    ensures ReadString(Quoted(t) + r) == Prepend(t[0], ReadString(Quoted(t[1..]) + r))
  {
    hide ReadString, Escape;
    assert Quoted(t) == Escape(t[0]) + Quoted(t[1..]);
    Nested(Escape(t[0]), Quoted(t[1..]), r);
    EscapeReads(t[0], Quoted(t[1..]) + r);
  }

  lemma ReadUnit(u: CodeUnit, r: Text)
    requires u >= 0x20 && u != 0x22 && u != 0x5C
    ensures ReadString([u] + r) == Prepend(u, ReadString(r))
  {
    assert ([u] + r)[1..] == r;
  }

  // ---- What is escaped ------------------------------------------------------------------------

  /**
   * A unit on its own is written as itself unless it is a quote, a backslash, a control or a surrogate; the short
   * escapes are used where there are any. A surrogate pair is written as it is.
   */
  lemma EscapesAreMinimal(u: CodeUnit)
    ensures |Escape(u)| == if u in {0x22, 0x5C, 0x08, 0x0C, 0x0A, 0x0D, 0x09} then 2
                           else if u < 0x20 || 0xD800 <= u < 0xE000 then 6 else 1
  {
    hide HexDigits;
  }

  lemma PairsStay(high: CodeUnit, low: CodeUnit, t: Text)
    requires 0xD800 <= high < 0xDC00 && 0xDC00 <= low < 0xE000
    ensures Quoted([high, low] + t) == [high, low] + Quoted(t)
  {
    hide Escape;
    assert ([high, low] + t)[..2] == [high, low] && ([high, low] + t)[2..] == t;
  }

  // ---- Numbers are tokens ---------------------------------------------------------------------

  lemma {:induction false} DigitsAreUnits(t: Text)
    ensures AllNumberUnits(t[..DigitRun(t)])
    decreases |t|
  {
    if t != [] && IsDigit(t[0]) {
      DigitsAreUnits(t[1..]);
      assert t[..DigitRun(t)] == [t[0]] + t[1..][..DigitRun(t[1..])];
    }
  }

  lemma ExponentUnits(t: Text)
    requires IsExponent(t)
    ensures AllNumberUnits(t)
  {
    if t != [] {
      var sign := if |t| > 1 && (t[1] == 0x2B || t[1] == 0x2D) then 2 else 1;
      DigitsAreUnits(t[sign..]);
      assert t[sign..][..|t[sign..]|] == t[sign..];
      assert t == t[..sign] + t[sign..];
    }
  }

  lemma FractionUnits(t: Text)
    requires IsFraction(t)
    ensures AllNumberUnits(t)
  {
    if t != [] && t[0] == 0x2E {
      var n := DigitRun(t[1..]);
      DigitsAreUnits(t[1..]);
      ExponentUnits(t[1 + n..]);
      assert t == [t[0]] + t[1..][..n] + t[1 + n..];
    } else {
      ExponentUnits(t);
    }
  }

  lemma UnsignedUnits(u: Text, n: nat)
    requires u != [] && n == (if u[0] == 0x30 then 1 else DigitRun(u)) && IsDigit(u[0]) && IsFraction(u[n..])
    ensures AllNumberUnits(u)
  {
    DigitsAreUnits(u);
    FractionUnits(u[n..]);
    hide IsFraction, DigitRun;
    assert u == u[..n] + u[n..];
  }

  /** Every number of the grammar is what the printer takes for one. */
  lemma NumberIsToken(t: Text)
    requires IsNumber(t)
    ensures IsToken(t)
  {
    hide IsFraction, DigitRun;
    var u := if t[0] == 0x2D then t[1..] else t;
    UnsignedUnits(u, if u[0] == 0x30 then 1 else DigitRun(u));
    hide IsNumber;
    if t[0] == 0x2D {
      forall i | 0 <= i < |t| ensures IsNumberUnit(t[i]) { assert i > 0 ==> t[i] == u[i - 1]; }
    }
  }

  // ---- Values are read back -------------------------------------------------------------------

  /** Every number in the value is one by the grammar, as the text of a JavaScript number is. */
  predicate NumbersAreNumbers(v: Json) {
    match v
    case Number(token) => IsNumber(token)
    case Arr(items) => forall i :: 0 <= i < |items| ==> NumbersAreNumbers(items[i])
    case Obj(fields) => forall i :: 0 <= i < |fields| ==> NumbersAreNumbers(fields[i].value)
    case _ => true
  }

  lemma {:induction false} TokenRun(t: Text, r: Text)
    requires AllNumberUnits(t) && Ends(r)
    ensures NumberRun(t + r) == |t|
  {
    if t == [] {
      assert t + r == r;
    } else {
      TokenRun(t[1..], r);
      assert (t + r)[0] == t[0] && (t + r)[1..] == t[1..] + r;
    }
  }

  /** A word or a number followed by something that ends it. */
  lemma WordReads(v: Json, r: Text)
    requires Printable(v) && NumbersAreNumbers(v) && Ends(r) && !v.Str? && !v.Arr? && !v.Obj?
    ensures ReadValue(Print(v) + r) == Done(v, r)
  {
    var p := Print(v);
    var t := p + r;
    FirstUnit(v);
    assert t[0] == p[0] && t[|p|..] == r && t[..|p|] == p;
    hide IsNumber;
    match v
    case Null => assert StartsWith(t, Ascii("null"));
    case Bool(value) =>
      if value { assert StartsWith(t, Ascii("true")) && !StartsWith(t, Ascii("null")); }
      else { assert StartsWith(t, Ascii("false")) && t[0] != Ascii("null")[0] && t[0] != Ascii("true")[0]; }
    case Number(token) =>
      TokenRun(token, r);
      NoWord(t);
  }

  lemma NoWord(t: Text)
    requires t != [] && (0x30 <= t[0] <= 0x39 || t[0] == 0x2D)
    ensures !StartsWith(t, Ascii("null")) && !StartsWith(t, Ascii("true")) && !StartsWith(t, Ascii("false"))
  {
    assert Ascii("null")[0] == 0x6E && Ascii("true")[0] == 0x74 && Ascii("false")[0] == 0x66;
  }

  lemma NoSpace(t: Text)
    requires t != [] && !(t[0] == 0x20 || t[0] == 0x09 || t[0] == 0x0A || t[0] == 0x0D)
    ensures SkipSpace(t) == t
  {
  }

  /** Nothing printed starts with a space, or closes a list. */
  lemma PrintedStart(v: Json)
    requires Printable(v)
    ensures Print(v) != []
    ensures var u := Print(v)[0]; u > 0x20 && u != 0x5D && u != 0x7D
  {
    if v.Null? || v.Bool? { assert Ascii("null")[0] == 0x6E && Ascii("true")[0] == 0x74 && Ascii("false")[0] == 0x66; }
  }

  /** Whatever is printed is read back, up to what follows it. */
  lemma {:induction false} PrintReads(v: Json, r: Text)
    requires Printable(v) && NumbersAreNumbers(v) && Ends(r)
    ensures ReadValue(Print(v) + r) == Done(v, r)
    decreases v
  {
    hide ReadItems, ReadFields, PrintItems, PrintFields, ReadString, Quoted, Ends, ReadWord, IsToken, IsNumber;
    if v.Str? {
      Nested([QUOTE], Quoted(v.text), r);
      QuotedReads(v.text, r);
      var t := [QUOTE] + (Quoted(v.text) + r);
      NoSpace(t);
      assert t[1..] == Quoted(v.text) + r;
    } else if v.Arr? {
      var body := PrintItems(v.items) + ([CLOSE_ARRAY] + r);
      Bracketed(OPEN_ARRAY, PrintItems(v.items), CLOSE_ARRAY, r);
      ArrayReads(v.items, r);
      var t := [OPEN_ARRAY] + body;
      NoSpace(t);
      assert t[1..] == body;
    } else if v.Obj? {
      var body := PrintFields(v.fields) + ([CLOSE_OBJECT] + r);
      Bracketed(OPEN_OBJECT, PrintFields(v.fields), CLOSE_OBJECT, r);
      ObjectReads(v.fields, r);
      var t := [OPEN_OBJECT] + body;
      NoSpace(t);
      assert t[1..] == body;
    } else {
      hide ReadValue, Print;
      WordReads(v, r);
    }
  }

  predicate AllReadable(items: seq<Json>) {
    forall i :: 0 <= i < |items| ==> Printable(items[i]) && NumbersAreNumbers(items[i])
  }

  predicate AllFieldsReadable(fields: seq<Field>) {
    forall i :: 0 <= i < |fields| ==> Printable(fields[i].value) && NumbersAreNumbers(fields[i].value)
  }

  /** What follows an opening bracket. */
  lemma {:induction false} ArrayReads(items: seq<Json>, r: Text)
    requires AllReadable(items)
    ensures var body := PrintItems(items) + ([CLOSE_ARRAY] + r);
      SkipSpace(body) == body && body != []
      && if items == [] then body[0] == 0x5D && body[1..] == r
         else body[0] != 0x5D && ReadItems(body) == Done(items, r)
    decreases items, 1
  {
    var body := PrintItems(items) + ([CLOSE_ARRAY] + r);
    if items == [] {
      assert body == [CLOSE_ARRAY] + r;
      NoSpace(body);
    } else {
      PrintedStart(items[0]);
      assert body[0] == Print(items[0])[0];
      NoSpace(body);
      hide ReadItems, PrintItems;
      ItemsRead(items, r);
    }
  }

  lemma {:induction false} ItemsRead(items: seq<Json>, r: Text)
    requires items != [] && AllReadable(items)
    ensures ReadItems(PrintItems(items) + ([CLOSE_ARRAY] + r)) == Done(items, r)
    decreases items, 0
  {
    var tail := PrintItems(items[1..]);
    var follows := After(tail, CLOSE_ARRAY, r);
    assert Printable(items[0]) && NumbersAreNumbers(items[0]);
    assert AllReadable(items[1..]);
    SeparatedIs(Print(items[0]), tail, CLOSE_ARRAY, r);
    AfterEnds(tail, CLOSE_ARRAY, r);
    hide ReadValue, Print, Printable, NumbersAreNumbers, Separated, Ends;
    PrintReads(items[0], follows);
    NoSpace(follows);
    assert items == [items[0]] + items[1..];
    TailIsEmpty(items[1..]);
    if items[1..] == [] {
      assert items == [items[0]];
      assert follows == [CLOSE_ARRAY] + r && follows[1..] == r;
    } else {
      assert follows[1..] == tail + ([CLOSE_ARRAY] + r);
      ItemsRead(items[1..], r);
    }
  }

  lemma TailIsEmpty(items: seq<Json>)
    requires AllReadable(items)
    ensures PrintItems(items) == [] <==> items == []
  {
    if items != [] { PrintedStart(items[0]); }
  }

  lemma {:induction false} ObjectReads(fields: seq<Field>, r: Text)
    requires AllFieldsReadable(fields)
    ensures var body := PrintFields(fields) + ([CLOSE_OBJECT] + r);
      SkipSpace(body) == body && body != []
      && if fields == [] then body[0] == 0x7D && body[1..] == r
         else body[0] != 0x7D && ReadFields(body) == Done(fields, r)
    decreases fields, 1
  {
    var body := PrintFields(fields) + ([CLOSE_OBJECT] + r);
    if fields == [] {
      assert body == [CLOSE_OBJECT] + r;
      NoSpace(body);
    } else {
      FieldsStart(fields);
      assert body[0] == PrintFields(fields)[0];
      NoSpace(body);
      hide ReadFields, PrintFields;
      FieldsRead(fields, r);
    }
  }

  lemma {:induction false} FieldsRead(fields: seq<Field>, r: Text)
    requires fields != [] && AllFieldsReadable(fields)
    ensures ReadFields(PrintFields(fields) + ([CLOSE_OBJECT] + r)) == Done(fields, r)
    decreases fields, 0
  {
    var tail := PrintFields(fields[1..]);
    var follows := After(tail, CLOSE_OBJECT, r);
    assert Printable(fields[0].value) && NumbersAreNumbers(fields[0].value);
    assert AllFieldsReadable(fields[1..]);
    SeparatedIs(PrintField(fields[0]), tail, CLOSE_OBJECT, r);
    AfterEnds(tail, CLOSE_OBJECT, r);
    FieldsStart(fields[1..]);
    hide ReadField, PrintField, Printable, NumbersAreNumbers, Separated, Ends;
    FieldReads(fields[0], follows);
    NoSpace(follows);
    assert fields == [fields[0]] + fields[1..];
    if fields[1..] == [] {
      assert fields == [fields[0]];
      assert follows == [CLOSE_OBJECT] + r && follows[1..] == r;
    } else {
      assert follows[1..] == tail + ([CLOSE_OBJECT] + r);
      FieldsRead(fields[1..], r);
    }
  }

  lemma {:induction false} FieldReads(f: Field, r: Text)
    requires Printable(f.value) && NumbersAreNumbers(f.value) && Ends(r)
    ensures ReadField(PrintField(f) + r) == Done(f, r)
    decreases f
  {
    var x := Print(f.value) + r;
    FieldIs(Quoted(f.key), Print(f.value), r);
    hide Quoted, Print, Printable, NumbersAreNumbers, Ends, ReadString, ReadValue;
    var t := [QUOTE] + (Quoted(f.key) + ([COLON] + x));
    NoSpace(t);
    assert t[1..] == Quoted(f.key) + ([COLON] + x);
    QuotedReads(f.key, [COLON] + x);
    NoSpace([COLON] + x);
    assert ([COLON] + x)[1..] == x;
    PrintReads(f.value, r);
  }

  /** A printed value is a JSON text, and reads as that value. */
  lemma DocumentReads(v: Json)
    requires Printable(v) && NumbersAreNumbers(v)
    ensures ReadDocument(Print(v)) == Some(v)
  {
    hide ReadValue, Print;
    assert Print(v) + [] == Print(v);
    PrintReads(v, []);
  }
}
