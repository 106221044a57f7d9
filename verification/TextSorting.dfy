/** The order in which JavaScript sorts strings by default. */
module TextSorting {
  import opened JsText
  import opened Sorting

  function TextOrder(): (Text, Text) -> bool { (a: Text, b: Text) => AtMost(a, b) }

  lemma TextOrderIsOrder()
    ensures TotalPreorder(TextOrder())
    ensures forall s: multiset<Text> :: NoTies(s, TextOrder())
  {
    forall a, b ensures AtMost(a, b) || AtMost(b, a) { AtMostTotal(a, b); }
    forall a, b, c | AtMost(a, b) && AtMost(b, c) ensures AtMost(a, c) { AtMostTransitive(a, b, c); }
    forall a, b | AtMost(a, b) && AtMost(b, a) ensures a == b { AtMostAntisymmetric(a, b); }
  }
}
