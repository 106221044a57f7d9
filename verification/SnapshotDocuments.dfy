/** The snapshot document as a JSON text: what a reader of the grammar gets back from it. */
module SnapshotDocuments {
  import opened JsText
  import opened JsonText
  import opened JsonReader
  import opened Wrappers
  import opened Collections
  import opened Sorting
  import opened TextSorting
  import opened CanonicalSnapshot

  // ---- The canonical value is the same data ---------------------------------------------------

  lemma CanonicalDefined(v: Json)
    ensures Canonical(v) != Undefined
  {
  }

  lemma CanonicalKeys(fields: seq<Field>)
    requires DistinctKeys(fields)
    ensures var r := CanonicalFields(Entries(fields));
      && DistinctKeys(r) && (forall i :: 0 <= i < |r| ==> r[i].value != Undefined)
      && forall i, j :: 0 <= i < j < |r| ==> Less(r[i].key, r[j].key)
  {
    hide Entries, Canonical, AtMost;
    EntriesOrdered(fields);
    var entries, r := Entries(fields), CanonicalFields(Entries(fields));
    forall i | 0 <= i < |r| ensures r[i].value != Undefined { CanonicalDefined(entries[i].value); }
    forall i, j | 0 <= i < j < |r| ensures Less(r[i].key, r[j].key) {
      assert entries[i].key != entries[j].key && KeyOrder()(entries[i], entries[j]);
    }
  }

  /** A defined property of an object is, in canonical form, a property of its canonical form. */
  lemma CanonicalValue(fields: seq<Field>, f: Field)
    requires DistinctKeys(fields) && f in fields && f.value != Undefined
    ensures ValueAt(CanonicalFields(Entries(fields)), f.key) == Canonical(f.value)
  {
    hide Canonical;
    CanonicalKeys(fields);
    var entries := Entries(fields);
    var k :| 0 <= k < |entries| && entries[k] == f;
    hide Entries;
    var r := CanonicalFields(entries);
    assert r[k] in r;
    ValueIs(r, r[k]);
  }

  /** The canonical form of a value holds the same data. */
  lemma {:induction false} CanonicalIsEquivalent(v: Json)
    requires Valid(v)
    ensures Equivalent(v, Canonical(v))
    decreases v
  {
    CanonicalKind(v);
    match v
    case Arr(items) =>
      CanonicalArray(items);
      hide Canonical;
      forall i | 0 <= i < |items| ensures Equivalent(items[i], Canonical(items[i])) { CanonicalIsEquivalent(items[i]); }
    case Obj(fields) =>
      CanonicalObject(fields);
      hide Canonical, Entries;
      forall i | 0 <= i < |fields| && fields[i].value != Undefined
        ensures ValueAt(CanonicalFields(Entries(fields)), fields[i].key) == Canonical(fields[i].value)
        ensures Canonical(fields[i].value) != Undefined && Equivalent(fields[i].value, Canonical(fields[i].value))
      {
        CanonicalValue(fields, fields[i]);
        CanonicalDefined(fields[i].value);
        CanonicalIsEquivalent(fields[i].value);
      }
      NoOtherFields(fields);
    case _ => hide Canonical;
  }

  lemma NoOtherFields(fields: seq<Field>)
    requires DistinctKeys(fields)
    ensures var r := CanonicalFields(Entries(fields));
      forall j :: 0 <= j < |r| ==> ValueAt(fields, r[j].key) != Undefined
  {
    hide Canonical;
    var entries, r := Entries(fields), CanonicalFields(Entries(fields));
    forall j | 0 <= j < |r| ensures ValueAt(fields, r[j].key) != Undefined {
      assert entries[j] in entries;
      ValueIs(fields, entries[j]);
    }
  }

  // ---- Keys in order at every depth -----------------------------------------------------------

  /** In every object the keys ascend strictly by code unit. */
  predicate KeysAscend(v: Json) {
    match v
    case Arr(items) => forall i :: 0 <= i < |items| ==> KeysAscend(items[i])
    case Obj(fields) =>
      && (forall i, j :: 0 <= i < j < |fields| ==> Less(fields[i].key, fields[j].key))
      && forall i :: 0 <= i < |fields| ==> KeysAscend(fields[i].value)
    case _ => true
  }

  lemma {:induction false} CanonicalAscends(v: Json)
    requires Valid(v)
    ensures KeysAscend(Canonical(v))
    decreases v
  {
    CanonicalKind(v);
    match v
    case Arr(items) =>
      CanonicalArray(items);
      hide Canonical;
      forall i | 0 <= i < |items| ensures KeysAscend(Canonical(items[i])) { CanonicalAscends(items[i]); }
    case Obj(fields) =>
      CanonicalObject(fields);
      CanonicalKeys(fields);
      hide Canonical, Less, CanonicalFields;
      FieldsAscend(fields);
    case _ =>
  }

  lemma {:induction false} FieldsAscend(fields: seq<Field>)
    requires Valid(Obj(fields))
    ensures forall i :: 0 <= i < |Entries(fields)| ==> KeysAscend(CanonicalFields(Entries(fields))[i].value)
    decreases fields
  {
    hide Canonical, KeysAscend;
    var entries := Entries(fields);
    forall i | 0 <= i < |entries| ensures KeysAscend(CanonicalFields(entries)[i].value) {
      assert entries[i] in fields;
      CanonicalAscends(entries[i].value);
    }
  }

  lemma {:induction false} CanonicalNumbers(v: Json)
    requires NumbersAreNumbers(v)
    ensures NumbersAreNumbers(Canonical(v))
    decreases v
  {
    CanonicalKind(v);
    hide IsNumber;
    match v
    case Arr(items) =>
      CanonicalArray(items);
      hide Canonical;
      forall i | 0 <= i < |items| ensures NumbersAreNumbers(Canonical(items[i])) { CanonicalNumbers(items[i]); }
    case Obj(fields) =>
      CanonicalObject(fields);
      hide Canonical, CanonicalFields;
      FieldNumbers(fields);
    case _ =>
  }

  lemma {:induction false} FieldNumbers(fields: seq<Field>)
    requires NumbersAreNumbers(Obj(fields))
    ensures forall i :: 0 <= i < |Entries(fields)| ==> NumbersAreNumbers(CanonicalFields(Entries(fields))[i].value)
    decreases fields
  {
    var entries := Entries(fields);
    forall i | 0 <= i < |entries| ensures NumbersAreNumbers(CanonicalFields(entries)[i].value) {
      assert entries[i] in fields;
      hide Canonical, Entries;
      CanonicalNumbers(entries[i].value);
    }
  }

  // ---- The document ---------------------------------------------------------------------------

  /** A snapshot and what was read from its document agree on every property but `submittedAt`, which is gone. */
  ghost predicate SameButSubmittedAt(snapshot: seq<Field>, read: seq<Field>) {
    forall key ::
      if key == Ascii("submittedAt") then ValueAt(read, key) == Undefined
      else
        && (ValueAt(read, key) == Undefined <==> ValueAt(snapshot, key) == Undefined)
        && Equivalent(ValueAt(snapshot, key), ValueAt(read, key))
  }

  lemma {:induction false} WithoutLeaves(fields: seq<Field>, key: Text)
    ensures ValueAt(WithoutSubmittedAt(fields), key)
      == if key == Ascii("submittedAt") then Undefined else ValueAt(fields, key)
  {
    hide Ascii;
    if fields != [] {
      WithoutLeaves(fields[1..], key);
      var rest := WithoutSubmittedAt(fields[1..]);
      assert ([fields[0]] + rest)[1..] == rest && [] + rest == rest;
    }
  }

  lemma PropertyIsEquivalent(fields: seq<Field>, key: Text)
    requires Valid(Obj(fields))
    ensures var w := ValueAt(CanonicalFields(Entries(fields)), key);
      Equivalent(ValueAt(fields, key), w) && (w == Undefined <==> ValueAt(fields, key) == Undefined)
  {
    hide Canonical;
    var v, r := ValueAt(fields, key), CanonicalFields(Entries(fields));
    if v != Undefined {
      hide Entries;
      ValueIsFrom(fields, key);
      CanonicalValue(fields, Field(key, v));
      CanonicalDefined(v);
      var i :| 0 <= i < |fields| && fields[i] == Field(key, v);
      CanonicalIsEquivalent(v);
    } else if ValueAt(r, key) != Undefined {
      ValueIsFrom(r, key);
      var j :| 0 <= j < |r| && r[j].key == key;
      NoOtherFields(fields);
    }
  }

  lemma RestAgrees(snapshot: seq<Field>)
    requires Valid(Obj(WithoutSubmittedAt(snapshot)))
    ensures SameButSubmittedAt(snapshot, CanonicalFields(Entries(WithoutSubmittedAt(snapshot))))
  {
    hide Canonical, Valid, Entries, WithoutSubmittedAt, Equivalent, Ascii;
    var rest := WithoutSubmittedAt(snapshot);
    forall key ensures var w := ValueAt(CanonicalFields(Entries(rest)), key);
      if key == Ascii("submittedAt") then w == Undefined
      else (w == Undefined <==> ValueAt(snapshot, key) == Undefined) && Equivalent(ValueAt(snapshot, key), w)
    {
      WithoutLeaves(snapshot, key);
      PropertyIsEquivalent(rest, key);
    }
  }

  lemma RestIsReadable(snapshot: seq<Field>)
    requires Valid(Obj(snapshot)) && NumbersAreNumbers(Obj(snapshot))
    ensures var v := Obj(WithoutSubmittedAt(snapshot));
      Valid(v) && Printable(Canonical(v)) && NumbersAreNumbers(Canonical(v)) && KeysAscend(Canonical(v))
  {
    var rest := WithoutSubmittedAt(snapshot);
    WithoutIsValid(snapshot);
    hide WithoutSubmittedAt, IsNumber;
    forall i | 0 <= i < |rest| ensures NumbersAreNumbers(rest[i].value) { assert rest[i] in snapshot; }
    assert NumbersAreNumbers(Obj(rest));
    hide Valid, NumbersAreNumbers, KeysAscend, Printable, Canonical;
    CanonicalPrintable(Obj(rest));
    CanonicalNumbers(Obj(rest));
    CanonicalAscends(Obj(rest));
  }

  /**
   * The document is a JSON text. Read by the grammar, it gives an object with its keys in order at every depth that
   * agrees with the snapshot on every property but `submittedAt`.
   */
  lemma DocumentIsJson(snapshot: seq<Field>)
    requires Valid(Obj(snapshot)) && NumbersAreNumbers(Obj(snapshot))
    ensures var read := ReadDocument(Document(snapshot));
      && read.Some? && read.value.Obj? && KeysAscend(read.value)
      && SameButSubmittedAt(snapshot, read.value.fields)
  {
    hide Canonical, Print, ReadDocument, KeysAscend, NumbersAreNumbers, Printable, Valid, SameButSubmittedAt, Entries,
      CanonicalFields, WithoutSubmittedAt;
    RestIsReadable(snapshot);
    RestAgrees(snapshot);
    DocumentReads(Canonical(Obj(WithoutSubmittedAt(snapshot))));
    CanonicalObject(WithoutSubmittedAt(snapshot));
  }
}
