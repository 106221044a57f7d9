/** The canonical snapshot document of `packages/contracts/src/backtests.ts`: keys sorted at every depth, then printed. */
module CanonicalSnapshot {
  import opened JsText
  import opened JsonText
  import opened Collections
  import opened Sorting
  import opened TextSorting

  // ---- Snapshots ------------------------------------------------------------------------------

  predicate DistinctKeys(fields: seq<Field>) {
    forall i, j :: 0 <= i < j < |fields| ==> fields[i].key != fields[j].key
  }

  /** A key that reads as an array index; JavaScript lists such keys first, whatever their order of insertion. */
  predicate IsIndexKey(key: Text) {
    && key != []
    && (key[0] != 0x30 || |key| == 1)
    && forall i :: 0 <= i < |key| ==> 0x30 <= key[i] <= 0x39
  }

  /** What the model takes for a value: finite numbers, and objects with distinct keys that are not indices. */
  predicate Valid(v: Json) {
    match v
    case Number(token) => IsToken(token)
    case Arr(items) => forall i :: 0 <= i < |items| ==> Valid(items[i])
    case Obj(fields) =>
      && DistinctKeys(fields)
      && forall i :: 0 <= i < |fields| ==> !IsIndexKey(fields[i].key) && Valid(fields[i].value)
    case _ => true
  }

  // ---- Sorting keys ---------------------------------------------------------------------------

  /** `filter(([, entryValue]) => entryValue !== undefined)`. */
  function Defined(fields: seq<Field>): (r: seq<Field>)
    ensures forall f :: f in r <==> f in fields && f.value != Undefined
  {
    if fields == [] then []
    else
      assert fields == [fields[0]] + fields[1..];
      (if fields[0].value == Undefined then [] else [fields[0]]) + Defined(fields[1..])
  }

  function KeyOrder(): (Field, Field) -> bool { (a: Field, b: Field) => AtMost(a.key, b.key) }

  /** The fields in the order in which the sorted copy receives them. */
  function Entries(fields: seq<Field>): (r: seq<Field>)
    ensures forall f :: f in r <==> f in fields && f.value != Undefined
  {
    var r := Sort(Defined(fields), KeyOrder());
    assert forall f :: f in r <==> f in multiset(r);
    r
  }

  /** `sortKeysDeeply`. */
  function SortKeys(v: Json): Json {
    match v
    case Arr(items) => Arr(seq(|items|, i requires 0 <= i < |items| => SortKeys(items[i])))
    case Obj(fields) =>
      var entries := Entries(fields);
      Obj(seq(|entries|, i requires 0 <= i < |entries| =>
        assert entries[i] in fields;
        Field(entries[i].key, SortKeys(entries[i].value))))
    case _ => v
  }

  /** What `JSON.stringify` writes of a value: undefined fields are skipped, undefined elements become null. */
  function Written(v: Json): Json {
    match v
    case Undefined => Null
    case Arr(items) => Arr(seq(|items|, i requires 0 <= i < |items| => Written(items[i])))
    case Obj(fields) =>
      var kept := Defined(fields);
      Obj(seq(|kept|, i requires 0 <= i < |kept| =>
        assert kept[i] in fields;
        Field(kept[i].key, Written(kept[i].value))))
    case _ => v
  }

  function Canonical(v: Json): Json { Written(SortKeys(v)) }

  function SubmittedAt(): Text { Ascii("submittedAt") }

  /** `delete hashable.submittedAt`, on a copy. */
  function WithoutSubmittedAt(fields: seq<Field>): (r: seq<Field>)
    ensures forall f :: f in r <==> f in fields && f.key != SubmittedAt()
  {
    if fields == [] then []
    else
      assert fields == [fields[0]] + fields[1..];
      (if fields[0].key == SubmittedAt() then [] else [fields[0]]) + WithoutSubmittedAt(fields[1..])
  }

  /** `canonicalBacktestSnapshotDocument`, of a snapshot given by its top-level fields. */
  function Document(snapshot: seq<Field>): Text { Print(Canonical(Obj(WithoutSubmittedAt(snapshot)))) }

  // ---- Equality up to key order ---------------------------------------------------------------

  /** Reading a property: an absent one is undefined. */
  function ValueAt(fields: seq<Field>, key: Text): Json {
    if fields == [] then Undefined
    else if fields[0].key == key then fields[0].value
    else ValueAt(fields[1..], key)
  }

  /** The same data: objects agree property by property, arrays element by element. */
  predicate Equivalent(v: Json, w: Json)
    decreases v
  {
    match v
    case Arr(items) =>
      w.Arr? && |items| == |w.items| && forall i :: 0 <= i < |items| ==> Equivalent(items[i], w.items[i])
    case Obj(fields) =>
      && w.Obj?
      && (forall j :: 0 <= j < |w.fields| && w.fields[j].value != Undefined ==>
        ValueAt(fields, w.fields[j].key) != Undefined)
      && (forall i :: 0 <= i < |fields| && fields[i].value != Undefined ==>
        && ValueAt(w.fields, fields[i].key) != Undefined
        && Equivalent(fields[i].value, ValueAt(w.fields, fields[i].key)))
    case Undefined => w.Undefined? || w.Null?
    case Null => w.Undefined? || w.Null?
    case _ => w == v
  }

  lemma {:induction false} ValueIs(fields: seq<Field>, f: Field)
    requires DistinctKeys(fields) && f in fields
    ensures ValueAt(fields, f.key) == f.value
  {
    assert fields == [fields[0]] + fields[1..];
    if fields[0] != f { ValueIs(fields[1..], f); }
  }

  lemma {:induction false} ValueIsFrom(fields: seq<Field>, key: Text)
    requires ValueAt(fields, key) != Undefined
    ensures Field(key, ValueAt(fields, key)) in fields
  {
    assert fields == [fields[0]] + fields[1..];
    if fields[0].key != key { ValueIsFrom(fields[1..], key); }
  }

  // ---- The sorted entries ---------------------------------------------------------------------

  lemma KeyOrderIsOrder()
    ensures TotalPreorder(KeyOrder())
  {
    forall a: Text, b ensures AtMost(a, b) || AtMost(b, a) { AtMostTotal(a, b); }
    forall a: Text, b, c | AtMost(a, b) && AtMost(b, c) ensures AtMost(a, c) { AtMostTransitive(a, b, c); }
  }

  lemma KeysDoNotTie(fields: seq<Field>)
    requires DistinctKeys(fields)
    ensures NoTies(multiset(fields), KeyOrder())
  {
    hide AtMost;
    forall f, g | f in multiset(fields) && g in multiset(fields) && KeyOrder()(f, g) && KeyOrder()(g, f) ensures f == g {
      AtMostAntisymmetric(f.key, g.key);
      var i :| 0 <= i < |fields| && fields[i] == f;
      var j :| 0 <= j < |fields| && fields[j] == g;
    }
  }

  lemma {:induction false} DefinedKeys(fields: seq<Field>)
    requires DistinctKeys(fields)
    ensures DistinctKeys(Defined(fields))
  {
    if fields != [] {
      assert fields == [fields[0]] + fields[1..];
      DefinedKeys(fields[1..]);
      forall f | f in Defined(fields[1..]) ensures f.key != fields[0].key {
        assert f in fields[1..];
      }
    }
  }

  function KeysOf(entries: seq<Field>): (r: seq<Text>)
    ensures |r| == |entries| && forall i :: 0 <= i < |entries| ==> r[i] == entries[i].key
  {
    seq(|entries|, i requires 0 <= i < |entries| => entries[i].key)
  }

  /** The entries' keys are distinct and in order. */
  lemma EntriesOrdered(fields: seq<Field>)
    requires DistinctKeys(fields)
    ensures Sorted(KeysOf(Entries(fields)), TextOrder()) && Distinct(KeysOf(Entries(fields)))
    ensures DistinctKeys(Entries(fields)) && Sorted(Entries(fields), KeyOrder())
  {
    var entries := Entries(fields);
    KeyOrderIsOrder();
    SortSorted(Defined(fields), KeyOrder());
    DefinedKeys(fields);
    assert multiset(entries) == multiset(Defined(fields));
    hide Defined, Entries, AtMost;
    PermutationDistinct(Defined(fields), entries);
    forall i, j | 0 <= i < j < |entries| ensures entries[i].key != entries[j].key {
      KeysApart(Defined(fields), entries[i], entries[j]);
    }
  }

  lemma KeysApart(fields: seq<Field>, f: Field, g: Field)
    requires DistinctKeys(fields) && f in fields && g in fields && f != g
    ensures f.key != g.key
  {
    var k :| 0 <= k < |fields| && fields[k] == f;
    var l :| 0 <= l < |fields| && fields[l] == g;
  }

  /** Entries of the same keys are listed in the same order. */
  lemma SameKeysSameOrder(fields: seq<Field>, others: seq<Field>)
    requires DistinctKeys(fields) && DistinctKeys(others)
    requires forall key :: key in KeysOf(Entries(fields)) <==> key in KeysOf(Entries(others))
    ensures KeysOf(Entries(fields)) == KeysOf(Entries(others))
  {
    hide Entries, AtMost;
    EntriesOrdered(fields);
    EntriesOrdered(others);
    SameElements(KeysOf(Entries(fields)), KeysOf(Entries(others)));
    TextOrderIsOrder();
    SortedUnique(KeysOf(Entries(fields)), KeysOf(Entries(others)), TextOrder());
  }

  lemma {:induction false} DefinedIsAll(fields: seq<Field>)
    requires forall i :: 0 <= i < |fields| ==> fields[i].value != Undefined
    ensures Defined(fields) == fields
  {
    if fields != [] { DefinedIsAll(fields[1..]); }
  }

  // ---- The canonical value is the same exactly for equivalent values --------------------------

  function CanonicalFields(entries: seq<Field>): (r: seq<Field>)
    ensures |r| == |entries|
    ensures forall i :: 0 <= i < |r| ==> r[i] == Field(entries[i].key, Canonical(entries[i].value))
  {
    seq(|entries|, i requires 0 <= i < |entries| => Field(entries[i].key, Canonical(entries[i].value)))
  }

  lemma SortKeysDefined(v: Json)
    ensures SortKeys(v) == Undefined <==> v == Undefined
  {
  }

  lemma SortedFields(fields: seq<Field>)
    ensures SortKeys(Obj(fields)).Obj?
    ensures var sorted, entries := SortKeys(Obj(fields)).fields, Entries(fields);
      && |sorted| == |entries|
      && (forall i :: 0 <= i < |entries| ==>
        sorted[i] == Field(entries[i].key, SortKeys(entries[i].value)) && sorted[i].value != Undefined)
      && Defined(sorted) == sorted
  {
    var sorted, entries := SortKeys(Obj(fields)).fields, Entries(fields);
    hide Entries, Defined;
    forall i | 0 <= i < |entries| ensures sorted[i].value != Undefined {
      assert entries[i] in entries;
      SortKeysDefined(entries[i].value);
    }
    DefinedIsAll(sorted);
  }

  lemma WrittenObject(fields: seq<Field>)
    requires Defined(fields) == fields
    ensures Written(Obj(fields)).Obj? && |Written(Obj(fields)).fields| == |fields|
    ensures forall i :: 0 <= i < |fields| ==>
      Written(Obj(fields)).fields[i] == Field(fields[i].key, Written(fields[i].value))
  {
    hide Defined;
  }

  lemma CanonicalObject(fields: seq<Field>)
    ensures Canonical(Obj(fields)) == Obj(CanonicalFields(Entries(fields)))
  {
    hide SortKeys, Entries, Defined, Written;
    SortedFields(fields);
    var sorted := SortKeys(Obj(fields)).fields;
    WrittenObject(sorted);
    assert Written(Obj(sorted)).fields == CanonicalFields(Entries(fields));
  }

  lemma CanonicalArray(items: seq<Json>)
    ensures Canonical(Arr(items)).Arr? && |Canonical(Arr(items)).items| == |items|
    ensures forall i :: 0 <= i < |items| ==> Canonical(Arr(items)).items[i] == Canonical(items[i])
  {
  }

  /** The kind of a canonical value; only undefined is replaced. */
  lemma CanonicalKind(v: Json)
    ensures Canonical(v) == Null <==> v.Undefined? || v.Null?
    ensures Canonical(v).Arr? <==> v.Arr?
    ensures Canonical(v).Obj? <==> v.Obj?
    ensures v.Bool? || v.Number? || v.Str? ==> Canonical(v) == v
  {
  }

  /** The canonical form leaves nothing for printing to skip or replace. */
  lemma {:induction false} CanonicalPrintable(v: Json)
    requires Valid(v)
    ensures Printable(Canonical(v))
    decreases v
  {
    match v
    case Arr(items) =>
      forall i | 0 <= i < |items| ensures Printable(Canonical(items[i])) { CanonicalPrintable(items[i]); }
    case Obj(fields) =>
      CanonicalObject(fields);
      var entries := Entries(fields);
      forall i | 0 <= i < |entries| ensures Printable(Canonical(entries[i].value)) {
        assert entries[i] in fields;
        CanonicalPrintable(entries[i].value);
      }
    case _ =>
  }

  /** Two values have the same canonical form exactly when they hold the same data. */
  lemma {:induction false} CanonicalDetermines(v: Json, w: Json)
    requires Valid(v) && Valid(w)
    ensures Canonical(v) == Canonical(w) <==> Equivalent(v, w)
    decreases v
  {
    CanonicalKind(v);
    CanonicalKind(w);
    hide Canonical, Valid;
    match v
    case Arr(items) => ArraysAgree(items, w);
    case Obj(fields) =>
      if w.Obj? { ObjectsAgree(fields, w.fields); }
    case _ =>
  }

  lemma {:induction false} ArraysAgree(items: seq<Json>, w: Json)
    requires Valid(Arr(items)) && Valid(w)
    ensures Canonical(Arr(items)) == Canonical(w) <==> Equivalent(Arr(items), w)
    decreases items
  {
    CanonicalKind(w);
    CanonicalArray(items);
    if w.Arr? { CanonicalArray(w.items); }
    hide Canonical;
    if w.Arr? && |items| == |w.items| {
      forall i | 0 <= i < |items| ensures Canonical(items[i]) == Canonical(w.items[i]) <==> Equivalent(items[i], w.items[i]) {
        CanonicalDetermines(items[i], w.items[i]);
      }
      var a, b := Canonical(Arr(items)).items, Canonical(w).items;
      assert a == b <==> forall i :: 0 <= i < |items| ==> a[i] == b[i];
    }
  }

  lemma {:induction false} ObjectsAgree(fields: seq<Field>, others: seq<Field>)
    requires Valid(Obj(fields)) && Valid(Obj(others))
    ensures Canonical(Obj(fields)) == Canonical(Obj(others)) <==> Equivalent(Obj(fields), Obj(others))
    decreases fields
  {
    hide Canonical, Entries, CanonicalFields, Equivalent;
    CanonicalObject(fields);
    CanonicalObject(others);
    var a, b := Entries(fields), Entries(others);
    forall i, j | 0 <= i < |a| && 0 <= j < |b|
      ensures Canonical(a[i].value) == Canonical(b[j].value) <==> Equivalent(a[i].value, b[j].value)
    {
      assert a[i] in fields && b[j] in others;
      CanonicalDetermines(a[i].value, b[j].value);
    }
    EntriesAgree(fields, others);
  }

  lemma SameFieldsAreEquivalent(fields: seq<Field>, others: seq<Field>)
    requires DistinctKeys(fields) && DistinctKeys(others)
    requires forall i, j :: 0 <= i < |Entries(fields)| && 0 <= j < |Entries(others)| ==>
      (Canonical(Entries(fields)[i].value) == Canonical(Entries(others)[j].value)
       ==> Equivalent(Entries(fields)[i].value, Entries(others)[j].value))
    requires CanonicalFields(Entries(fields)) == CanonicalFields(Entries(others))
    ensures Equivalent(Obj(fields), Obj(others))
  {
    hide Canonical, Entries, CanonicalFields;
    var a, b := Entries(fields), Entries(others);
    var c, d := CanonicalFields(a), CanonicalFields(b);
    assert forall i :: 0 <= i < |c| ==> c[i] == d[i];
    forall i | 0 <= i < |fields| && fields[i].value != Undefined
      ensures ValueAt(others, fields[i].key) != Undefined
      ensures Equivalent(fields[i].value, ValueAt(others, fields[i].key))
    {
      assert fields[i] in a;
      var k :| 0 <= k < |a| && a[k] == fields[i];
      assert b[k] in others && b[k].key == fields[i].key;
      ValueIs(others, b[k]);
    }
    forall j | 0 <= j < |others| && others[j].value != Undefined ensures ValueAt(fields, others[j].key) != Undefined {
      assert others[j] in b;
      var k :| 0 <= k < |b| && b[k] == others[j];
      assert a[k] in fields && a[k].key == others[j].key;
      ValueIs(fields, a[k]);
    }
  }

  lemma EquivalentFieldsAreSame(fields: seq<Field>, others: seq<Field>)
    requires DistinctKeys(fields) && DistinctKeys(others)
    requires forall i, j :: 0 <= i < |Entries(fields)| && 0 <= j < |Entries(others)| ==>
      (Equivalent(Entries(fields)[i].value, Entries(others)[j].value)
       ==> Canonical(Entries(fields)[i].value) == Canonical(Entries(others)[j].value))
    requires Equivalent(Obj(fields), Obj(others))
    ensures CanonicalFields(Entries(fields)) == CanonicalFields(Entries(others))
  {
    hide Canonical, Entries, CanonicalFields;
    var a, b := Entries(fields), Entries(others);
    forall key ensures key in KeysOf(a) <==> key in KeysOf(b) { SameKey(fields, others, key); }
    SameKeysSameOrder(fields, others);
    forall k | 0 <= k < |a| ensures a[k].key == b[k].key && Canonical(a[k].value) == Canonical(b[k].value) {
      assert KeysOf(a)[k] == KeysOf(b)[k];
      assert a[k] in a && b[k] in b;
      var i :| 0 <= i < |fields| && fields[i] == a[k];
      ValueIs(others, b[k]);
      assert Equivalent(fields[i].value, b[k].value);
    }
    var c, d := CanonicalFields(a), CanonicalFields(b);
    assert forall k :: 0 <= k < |a| ==> c[k] == d[k];
  }

  lemma SameKey(fields: seq<Field>, others: seq<Field>, key: Text)
    requires DistinctKeys(fields) && DistinctKeys(others) && Equivalent(Obj(fields), Obj(others))
    ensures key in KeysOf(Entries(fields)) <==> key in KeysOf(Entries(others))
  {
    hide Entries;
    KeyHasValue(fields, key);
    KeyHasValue(others, key);
    if ValueAt(fields, key) != Undefined {
      ValueIsFrom(fields, key);
      var i :| 0 <= i < |fields| && fields[i] == Field(key, ValueAt(fields, key));
    }
    if ValueAt(others, key) != Undefined {
      ValueIsFrom(others, key);
      var j :| 0 <= j < |others| && others[j] == Field(key, ValueAt(others, key));
    }
  }

  lemma KeyHasValue(fields: seq<Field>, key: Text)
    requires DistinctKeys(fields)
    ensures key in KeysOf(Entries(fields)) <==> ValueAt(fields, key) != Undefined
  {
    hide Entries;
    var entries := Entries(fields);
    if key in KeysOf(entries) {
      var i :| 0 <= i < |entries| && KeysOf(entries)[i] == key;
      assert entries[i] in entries;
      ValueIs(fields, entries[i]);
    }
    if ValueAt(fields, key) != Undefined {
      ValueIsFrom(fields, key);
      var f := Field(key, ValueAt(fields, key));
      assert f in entries;
      var i :| 0 <= i < |entries| && entries[i] == f;
      assert KeysOf(entries)[i] == key;
    }
  }

  /** Once the values at the sorted keys are compared, so are the objects. */
  lemma EntriesAgree(fields: seq<Field>, others: seq<Field>)
    requires DistinctKeys(fields) && DistinctKeys(others)
    requires forall i, j :: 0 <= i < |Entries(fields)| && 0 <= j < |Entries(others)| ==>
      (Canonical(Entries(fields)[i].value) == Canonical(Entries(others)[j].value)
       <==> Equivalent(Entries(fields)[i].value, Entries(others)[j].value))
    ensures CanonicalFields(Entries(fields)) == CanonicalFields(Entries(others))
       <==> Equivalent(Obj(fields), Obj(others))
  {
    if CanonicalFields(Entries(fields)) == CanonicalFields(Entries(others)) { SameFieldsAreEquivalent(fields, others); }
    if Equivalent(Obj(fields), Obj(others)) { EquivalentFieldsAreSame(fields, others); }
  }

  /** Two snapshots have the same document exactly when, `submittedAt` aside, they hold the same data. */
  lemma SameDocument(a: seq<Field>, b: seq<Field>)
    requires Valid(Obj(a)) && Valid(Obj(b))
    ensures Document(a) == Document(b)
       <==> Equivalent(Obj(WithoutSubmittedAt(a)), Obj(WithoutSubmittedAt(b)))
  {
    hide Canonical, Equivalent, Print;
    WithoutIsValid(a);
    WithoutIsValid(b);
    var v, w := Obj(WithoutSubmittedAt(a)), Obj(WithoutSubmittedAt(b));
    CanonicalDetermines(v, w);
    CanonicalPrintable(v);
    CanonicalPrintable(w);
    if Document(a) == Document(b) {
      assert Print(Canonical(v)) + [] == Print(Canonical(w)) + [];
      PrintDetermines(Canonical(v), Canonical(w), [], []);
    }
  }

  lemma {:induction false} WithoutKeepsApart(fields: seq<Field>)
    requires DistinctKeys(fields)
    ensures DistinctKeys(WithoutSubmittedAt(fields))
  {
    if fields != [] {
      hide SubmittedAt;
      WithoutKeepsApart(fields[1..]);
      var rest := WithoutSubmittedAt(fields[1..]);
      forall i | 0 <= i < |rest| ensures rest[i].key != fields[0].key { assert rest[i] in fields[1..]; }
    }
  }

  lemma WithoutIsValid(fields: seq<Field>)
    requires Valid(Obj(fields))
    ensures Valid(Obj(WithoutSubmittedAt(fields)))
  {
    WithoutKeepsApart(fields);
    hide WithoutSubmittedAt, SubmittedAt, IsIndexKey, DistinctKeys;
    var rest := WithoutSubmittedAt(fields);
    forall i | 0 <= i < |rest| ensures !IsIndexKey(rest[i].key) && Valid(rest[i].value) { assert rest[i] in fields; }
  }

  // ---- Sorting keys, by itself ----------------------------------------------------------------

  /** Sorting again changes nothing. */
  lemma {:induction false} SortKeysIdempotent(v: Json)
    requires Valid(v)
    ensures SortKeys(SortKeys(v)) == SortKeys(v)
    decreases v
  {
    match v
    case Arr(items) =>
      forall i | 0 <= i < |items| ensures SortKeys(SortKeys(items[i])) == SortKeys(items[i]) {
        SortKeysIdempotent(items[i]);
      }
    case Obj(fields) =>
      SortedFields(fields);
      var sorted, entries := SortKeys(Obj(fields)).fields, Entries(fields);
      forall i | 0 <= i < |sorted| ensures SortKeys(sorted[i].value) == sorted[i].value {
        assert entries[i] in fields;
        SortKeysIdempotent(entries[i].value);
      }
      SortedStay(fields);
      SortedFields(sorted);
    case _ =>
  }

  /** The sorted copy's entries are already in order. */
  lemma SortedStay(fields: seq<Field>)
    requires DistinctKeys(fields)
    ensures SortKeys(Obj(fields)).Obj?
    ensures Entries(SortKeys(Obj(fields)).fields) == SortKeys(Obj(fields)).fields
  {
    hide SortKeys, Entries, Defined, AtMost;
    SortedFields(fields);
    EntriesOrdered(fields);
    KeyOrderIsOrder();
    var sorted := SortKeys(Obj(fields)).fields;
    assert Sorted(sorted, KeyOrder()) by { assert forall i :: 0 <= i < |sorted| ==> sorted[i].key == Entries(fields)[i].key; }
    hide Sorted;
    KeysDoNotTie(sorted);
    SortOfSorted(sorted, KeyOrder());
    EntriesWhenDefined(sorted);
  }

  lemma EntriesWhenDefined(fields: seq<Field>)
    requires Defined(fields) == fields
    ensures Entries(fields) == Sort(fields, KeyOrder())
  {
    hide Defined;
  }

  /** The order in which an object's fields were inserted does not show in the sorted copy. */
  lemma SortKeysForgetsOrder(fields: seq<Field>, others: seq<Field>)
    requires DistinctKeys(fields) && multiset(fields) == multiset(others)
    ensures SortKeys(Obj(fields)) == SortKeys(Obj(others))
  {
    EntriesForgetOrder(fields, others);
    hide Entries;
    assert SortKeys(Obj(fields)).fields == SortKeys(Obj(others)).fields;
  }

  lemma EntriesForgetOrder(fields: seq<Field>, others: seq<Field>)
    requires DistinctKeys(fields) && multiset(fields) == multiset(others)
    ensures Entries(fields) == Entries(others)
  {
    DefinedOfPermutation(fields);
    DefinedOfPermutation(others);
    DefinedKeys(fields);
    hide AtMost, Defined;
    KeysDoNotTie(Defined(fields));
    KeyOrderIsOrder();
    assert multiset(Defined(fields)) == multiset(Defined(others));
    SortOfPermutation(Defined(fields), Defined(others), KeyOrder());
  }

  lemma {:induction false} DefinedOfPermutation(fields: seq<Field>)
    ensures forall f :: multiset(Defined(fields))[f] == if f.value == Undefined then 0 else multiset(fields)[f]
  {
    if fields != [] {
      assert fields == [fields[0]] + fields[1..];
      DefinedOfPermutation(fields[1..]);
    }
  }
}
