/** JSON values and the text `JSON.stringify` prints for them (RFC 8259, sections 3 to 7). */
module JsonText {
  import opened Arithmetic
  import opened HexText
  import opened JsText

  /**
   * A JavaScript value that JSON can carry. A number is held as the text it prints as, which is the
   * same for two finite numbers only when they are equal (or both zero). Fields are in insertion order.
   */
  datatype Json =
    | Undefined
    | Null
    | Bool(value: bool)
    | Number(token: Text)
    | Str(text: Text)
    | Arr(items: seq<Json>)
    | Obj(fields: seq<Field>)

  datatype Field = Field(key: Text, value: Json)

  const QUOTE: CodeUnit := 0x22
  const BACKSLASH: CodeUnit := 0x5C
  const COMMA: CodeUnit := 0x2C
  const COLON: CodeUnit := 0x3A
  const OPEN_ARRAY: CodeUnit := 0x5B
  const CLOSE_ARRAY: CodeUnit := 0x5D
  const OPEN_OBJECT: CodeUnit := 0x7B
  const CLOSE_OBJECT: CodeUnit := 0x7D

  /** The units of a number: digits, sign, point and exponent mark. */
  predicate IsNumberUnit(u: CodeUnit) { 0x30 <= u <= 0x39 || u == 0x2B || u == 0x2D || u == 0x2E || u == 0x45 || u == 0x65 }

  /** A number starts with a digit or a minus sign. */
  predicate IsToken(t: Text) {
    && t != []
    && (0x30 <= t[0] <= 0x39 || t[0] == 0x2D)
    && forall i :: 0 <= i < |t| ==> IsNumberUnit(t[i])
  }

  /** A value with nothing left for printing to skip or replace. */
  predicate Printable(v: Json) {
    match v
    case Undefined => false
    case Number(token) => IsToken(token)
    case Arr(items) => forall i :: 0 <= i < |items| ==> Printable(items[i])
    case Obj(fields) => forall i :: 0 <= i < |fields| ==> Printable(fields[i].value)
    case _ => true
  }

  // ---- Strings --------------------------------------------------------------------------------

  function UnicodeEscape(u: CodeUnit): Text { [BACKSLASH, 0x75] + HexDigits(u, 4) }

  /** A code unit on its own: short escapes, `\u` escapes for controls and lone surrogates, or itself. */
  function Escape(u: CodeUnit): Text {
    if u == QUOTE || u == BACKSLASH then [BACKSLASH, u]
    else if u == 0x08 then [BACKSLASH, 0x62]
    else if u == 0x0C then [BACKSLASH, 0x66]
    else if u == 0x0A then [BACKSLASH, 0x6E]
    else if u == 0x0D then [BACKSLASH, 0x72]
    else if u == 0x09 then [BACKSLASH, 0x74]
    else if u < 0x20 || IsHigh(u) || IsLow(u) then UnicodeEscape(u)
    else [u]
  }

  /** A string's text after the opening quote; a surrogate pair is written as it is. */
  function Quoted(t: Text): Text {
    if t == [] then [QUOTE]
    else if StartsWithPair(t) then t[..2] + Quoted(t[2..])
    else Escape(t[0]) + Quoted(t[1..])
  }

  // ---- Printing -------------------------------------------------------------------------------

  function Separated(head: Text, tail: Text): Text {
    if tail == [] then head else head + [COMMA] + tail
  }

  /** `JSON.stringify` without indentation. */
  function Print(v: Json): Text
    decreases v
  {
    match v
    case Undefined => []
    case Null => Ascii("null")
    case Bool(value) => if value then Ascii("true") else Ascii("false")
    case Number(token) => token
    case Str(text) => [QUOTE] + Quoted(text)
    case Arr(items) => [OPEN_ARRAY] + PrintItems(items) + [CLOSE_ARRAY]
    case Obj(fields) => [OPEN_OBJECT] + PrintFields(fields) + [CLOSE_OBJECT]
  }

  function PrintItems(items: seq<Json>): Text
    decreases items
  {
    if items == [] then [] else Separated(Print(items[0]), PrintItems(items[1..]))
  }

  function PrintFields(fields: seq<Field>): Text
    decreases fields
  {
    if fields == [] then []
    else Separated(PrintField(fields[0]), PrintFields(fields[1..]))
  }

  /** A field's text: the quoted key, a colon and the value. */
  function PrintField(f: Field): Text
    decreases f
  {
    [QUOTE] + Quoted(f.key) + [COLON] + Print(f.value)
  }

  // ---- Strings are read back ------------------------------------------------------------------

  lemma Cancel(a: Text, b: Text, x: Text, y: Text)
    requires |a| == |b| && a + x == b + y
    ensures a == b && x == y
  {
    assert a == (a + x)[..|a|] && b == (b + y)[..|b|];
    assert x == (a + x)[|a|..] && y == (b + y)[|b|..];
  }

  lemma Nested(a: Text, b: Text, c: Text)
    ensures a + b + c == a + (b + c)
  {
  }

  lemma UnicodeEscapeDetermines(u: CodeUnit, w: CodeUnit)
    requires UnicodeEscape(u) == UnicodeEscape(w)
    ensures u == w
  {
    Cancel([BACKSLASH, 0x75], [BACKSLASH, 0x75], HexDigits(u, 4), HexDigits(w, 4));
    assert Pow2(16) == 0x1_0000 by { assert Pow2(8) == 256; }
    HexDigitsDetermine(u, w, 4);
  }

  lemma EscapeDetermines(u: CodeUnit, w: CodeUnit, r: Text, s: Text)
    requires Escape(u) + r == Escape(w) + s
    ensures u == w && r == s
  {
    hide HexDigits;
    var x, y := Escape(u), Escape(w);
    assert (x + r)[0] == x[0] && (y + s)[0] == y[0];
    assert x[0] == BACKSLASH ==> (x + r)[1] == x[1];
    assert y[0] == BACKSLASH ==> (y + s)[1] == y[1];
    assert |x| == |y|;
    Cancel(x, y, r, s);
    if |x| == 6 { UnicodeEscapeDetermines(u, w); }
  }

  /** The first unit of the text after an opening quote says what comes next. */
  lemma QuotedStart(t: Text)
    ensures Quoted(t) != []
    ensures t == [] <==> Quoted(t)[0] == QUOTE
    ensures StartsWithPair(t) <==> IsHigh(Quoted(t)[0])
  {
    hide HexDigits;
  }

  lemma {:induction false} QuotedDetermines(t: Text, u: Text, r: Text, s: Text)
    requires Quoted(t) + r == Quoted(u) + s
    ensures t == u && r == s
  {
    QuotedStart(t);
    QuotedStart(u);
    assert (Quoted(t) + r)[0] == Quoted(t)[0] && (Quoted(u) + s)[0] == Quoted(u)[0];
    hide Escape, IsHigh, IsLow;
    if t == [] {
      Cancel(Quoted(t), Quoted(u), r, s);
    } else if StartsWithPair(t) {
      Nested(t[..2], Quoted(t[2..]), r);
      Nested(u[..2], Quoted(u[2..]), s);
      Cancel(t[..2], u[..2], Quoted(t[2..]) + r, Quoted(u[2..]) + s);
      QuotedDetermines(t[2..], u[2..], r, s);
      assert t == t[..2] + t[2..] && u == u[..2] + u[2..];
    } else {
      Nested(Escape(t[0]), Quoted(t[1..]), r);
      Nested(Escape(u[0]), Quoted(u[1..]), s);
      EscapeDetermines(t[0], u[0], Quoted(t[1..]) + r, Quoted(u[1..]) + s);
      QuotedDetermines(t[1..], u[1..], r, s);
      assert t == [t[0]] + t[1..] && u == [u[0]] + u[1..];
    }
  }

  // ---- Printing is unambiguous ----------------------------------------------------------------

  /** Text that can follow a value: nothing, a comma or a closing bracket. */
  predicate Ends(r: Text) { r == [] || r[0] == COMMA || r[0] == CLOSE_ARRAY || r[0] == CLOSE_OBJECT }

  datatype Kind = Nothing | Truth | Falsehood | Numeral | StringText | Array | Object

  function KindOf(v: Json): Kind
    requires Printable(v)
  {
    match v
    case Null => Nothing
    case Bool(value) => if value then Truth else Falsehood
    case Number(_) => Numeral
    case Str(_) => StringText
    case Arr(_) => Array
    case Obj(_) => Object
  }

  function KindAt(u: CodeUnit): Kind {
    if u == 0x6E then Nothing
    else if u == 0x74 then Truth
    else if u == 0x66 then Falsehood
    else if u == QUOTE then StringText
    else if u == OPEN_ARRAY then Array
    else if u == OPEN_OBJECT then Object
    else Numeral
  }

  /** The first unit of a printed value tells its kind, and never closes or separates anything. */
  lemma FirstUnit(v: Json)
    requires Printable(v)
    ensures Print(v) != [] && KindAt(Print(v)[0]) == KindOf(v) && !Ends(Print(v))
  {
  }

  predicate AllNumberUnits(t: Text) { forall i :: 0 <= i < |t| ==> IsNumberUnit(t[i]) }

  lemma {:induction false} TokenDetermines(t: Text, u: Text, r: Text, s: Text)
    requires AllNumberUnits(t) && AllNumberUnits(u)
    requires Ends(r) && Ends(s) && t + r == u + s
    ensures t == u && r == s
  {
    assert t != [] ==> (t + r)[0] == t[0];
    assert u != [] ==> (u + s)[0] == u[0];
    assert t == [] ==> t + r == r;
    assert u == [] ==> u + s == s;
    assert t == [] <==> u == [];
    if t != [] {
      assert t == [t[0]] + t[1..] && u == [u[0]] + u[1..];
      Nested([t[0]], t[1..], r);
      Nested([u[0]], u[1..], s);
      Cancel([t[0]], [u[0]], t[1..] + r, u[1..] + s);
      TokenDetermines(t[1..], u[1..], r, s);
    }
  }

  lemma Bracketed(open: CodeUnit, body: Text, close: CodeUnit, r: Text)
    ensures [open] + body + [close] + r == [open] + (body + ([close] + r))
  {
  }

  lemma FieldIs(key: Text, value: Text, r: Text)
    ensures [QUOTE] + key + [COLON] + value + r == [QUOTE] + (key + ([COLON] + (value + r)))
  {
  }

  /** A printed value followed by something that ends it is read back in one way only. */
  lemma {:induction false} PrintDetermines(v: Json, w: Json, r: Text, s: Text)
    requires Printable(v) && Printable(w) && Ends(r) && Ends(s)
    requires Print(v) + r == Print(w) + s
    ensures v == w && r == s
    decreases v
  {
    hide Quoted, PrintItems, PrintFields;
    FirstUnit(v);
    FirstUnit(w);
    assert (Print(v) + r)[0] == Print(v)[0] && (Print(w) + s)[0] == Print(w)[0];
    hide Ends, KindAt, IsToken;
    match v
    case Number(token) =>
      assert IsToken(token) && IsToken(w.token);
      TokenDetermines(token, w.token, r, s);
    case Str(text) =>
      Nested([QUOTE], Quoted(text), r);
      Nested([QUOTE], Quoted(w.text), s);
      Cancel([QUOTE], [QUOTE], Quoted(text) + r, Quoted(w.text) + s);
      QuotedDetermines(text, w.text, r, s);
    case Arr(items) =>
      Bracketed(OPEN_ARRAY, PrintItems(items), CLOSE_ARRAY, r);
      Bracketed(OPEN_ARRAY, PrintItems(w.items), CLOSE_ARRAY, s);
      Cancel([OPEN_ARRAY], [OPEN_ARRAY], PrintItems(items) + ([CLOSE_ARRAY] + r), PrintItems(w.items) + ([CLOSE_ARRAY] + s));
      ItemsDetermine(items, w.items, r, s);
    case Obj(fields) =>
      Bracketed(OPEN_OBJECT, PrintFields(fields), CLOSE_OBJECT, r);
      Bracketed(OPEN_OBJECT, PrintFields(w.fields), CLOSE_OBJECT, s);
      Cancel([OPEN_OBJECT], [OPEN_OBJECT], PrintFields(fields) + ([CLOSE_OBJECT] + r), PrintFields(w.fields) + ([CLOSE_OBJECT] + s));
      FieldsDetermine(fields, w.fields, r, s);
    case _ => Cancel(Print(v), Print(w), r, s);
  }

  /** The text after a printed item or field: the separator and the rest of the list, or its end. */
  function After(tail: Text, close: CodeUnit, r: Text): Text {
    if tail == [] then [close] + r else [COMMA] + (tail + ([close] + r))
  }

  lemma SeparatedIs(head: Text, tail: Text, close: CodeUnit, r: Text)
    ensures Separated(head, tail) + ([close] + r) == head + After(tail, close, r)
  {
  }

  lemma AfterDetermines(tail: Text, other: Text, close: CodeUnit, r: Text, s: Text)
    requires close != COMMA && After(tail, close, r) == After(other, close, s)
    ensures tail + ([close] + r) == other + ([close] + s)
    ensures tail == [] <==> other == []
  {
    assert After(tail, close, r)[0] == if tail == [] then close else COMMA;
    assert After(other, close, s)[0] == if other == [] then close else COMMA;
    if tail == [] {
      assert tail + ([close] + r) == [close] + r && other + ([close] + s) == [close] + s;
    } else {
      Cancel([COMMA], [COMMA], tail + ([close] + r), other + ([close] + s));
    }
  }

  predicate AllPrintable(items: seq<Json>) { forall i :: 0 <= i < |items| ==> Printable(items[i]) }

  predicate AllFieldsPrintable(fields: seq<Field>) { forall i :: 0 <= i < |fields| ==> Printable(fields[i].value) }

  lemma ItemsStart(items: seq<Json>)
    requires AllPrintable(items)
    ensures PrintItems(items) == [] <==> items == []
    ensures items != [] ==> PrintItems(items)[0] != CLOSE_ARRAY
  {
    if items != [] { FirstUnit(items[0]); }
  }

  /** Whether a list is empty shows in the unit where its first element or its bracket would be. */
  lemma EmptyTogether(body: Text, other: Text, close: CodeUnit, r: Text, s: Text)
    requires body != [] ==> body[0] != close
    requires other != [] ==> other[0] != close
    requires body + ([close] + r) == other + ([close] + s)
    ensures body == [] <==> other == []
    ensures body == [] ==> r == s
  {
    assert (body + ([close] + r))[0] == if body == [] then close else body[0];
    assert (other + ([close] + s))[0] == if other == [] then close else other[0];
    if body == [] {
      assert body + ([close] + r) == [close] + r && other + ([close] + s) == [close] + s;
      Cancel([close], [close], r, s);
    }
  }

  lemma {:induction false} ItemsDetermine(items: seq<Json>, others: seq<Json>, r: Text, s: Text)
    requires AllPrintable(items) && AllPrintable(others)
    requires PrintItems(items) + ([CLOSE_ARRAY] + r) == PrintItems(others) + ([CLOSE_ARRAY] + s)
    ensures items == others && r == s
    decreases items
  {
    assert items != [] ==> Printable(items[0]);
    assert others != [] ==> Printable(others[0]);
    hide Separated, Print, Printable, After;
    ItemsStart(items);
    ItemsStart(others);
    EmptyTogether(PrintItems(items), PrintItems(others), CLOSE_ARRAY, r, s);
    if items != [] {
      var tail, other := PrintItems(items[1..]), PrintItems(others[1..]);
      SeparatedIs(Print(items[0]), tail, CLOSE_ARRAY, r);
      SeparatedIs(Print(others[0]), other, CLOSE_ARRAY, s);
      AfterEnds(tail, CLOSE_ARRAY, r);
      AfterEnds(other, CLOSE_ARRAY, s);
      PrintDetermines(items[0], others[0], After(tail, CLOSE_ARRAY, r), After(other, CLOSE_ARRAY, s));
      AfterDetermines(tail, other, CLOSE_ARRAY, r, s);
      ItemsDetermine(items[1..], others[1..], r, s);
      assert items == [items[0]] + items[1..] && others == [others[0]] + others[1..];
    }
  }

  lemma AfterEnds(tail: Text, close: CodeUnit, r: Text)
    requires close == CLOSE_ARRAY || close == CLOSE_OBJECT
    ensures Ends(After(tail, close, r))
  {
  }

  lemma FieldsStart(fields: seq<Field>)
    ensures PrintFields(fields) == [] <==> fields == []
    ensures fields != [] ==> PrintFields(fields)[0] == QUOTE
  {
  }

  lemma {:induction false} FieldsDetermine(fields: seq<Field>, others: seq<Field>, r: Text, s: Text)
    requires AllFieldsPrintable(fields) && AllFieldsPrintable(others)
    requires PrintFields(fields) + ([CLOSE_OBJECT] + r) == PrintFields(others) + ([CLOSE_OBJECT] + s)
    ensures fields == others && r == s
    decreases fields
  {
    hide Separated, PrintField, Printable, After;
    FieldsStart(fields);
    FieldsStart(others);
    EmptyTogether(PrintFields(fields), PrintFields(others), CLOSE_OBJECT, r, s);
    if fields != [] {
      var tail, other := PrintFields(fields[1..]), PrintFields(others[1..]);
      SeparatedIs(PrintField(fields[0]), tail, CLOSE_OBJECT, r);
      SeparatedIs(PrintField(others[0]), other, CLOSE_OBJECT, s);
      AfterEnds(tail, CLOSE_OBJECT, r);
      AfterEnds(other, CLOSE_OBJECT, s);
      FieldDetermines(fields[0], others[0], After(tail, CLOSE_OBJECT, r), After(other, CLOSE_OBJECT, s));
      AfterDetermines(tail, other, CLOSE_OBJECT, r, s);
      FieldsDetermine(fields[1..], others[1..], r, s);
      assert fields == [fields[0]] + fields[1..] && others == [others[0]] + others[1..];
    }
  }

  lemma {:induction false} FieldDetermines(f: Field, g: Field, r: Text, s: Text)
    requires Printable(f.value) && Printable(g.value) && Ends(r) && Ends(s)
    requires PrintField(f) + r == PrintField(g) + s
    ensures f == g && r == s
    decreases f
  {
    hide Quoted, Print, Printable, Ends;
    FieldIs(Quoted(f.key), Print(f.value), r);
    FieldIs(Quoted(g.key), Print(g.value), s);
    var x, y := Print(f.value) + r, Print(g.value) + s;
    Cancel([QUOTE], [QUOTE], Quoted(f.key) + ([COLON] + x), Quoted(g.key) + ([COLON] + y));
    QuotedDetermines(f.key, g.key, [COLON] + x, [COLON] + y);
    Cancel([COLON], [COLON], x, y);
    PrintDetermines(f.value, g.value, r, s);
  }
}
