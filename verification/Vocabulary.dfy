/** Filters over a closed, ordered vocabulary: sorting a list by it, and selecting from it. */
module Vocabulary {
  import opened JsText
  import opened Collections
  import opened Sorting

  /** `indexOf`. */
  function IndexOf(words: seq<Text>, word: Text): (i: int)
    ensures -1 <= i < |words|
    ensures i >= 0 <==> word in words
    ensures i >= 0 ==> words[i] == word
  {
    if words == [] then -1
    else if words[0] == word then 0
    else
      var i := IndexOf(words[1..], word);
      assert words == [words[0]] + words[1..];
      if i < 0 then -1 else i + 1
  }

  function ByIndex(words: seq<Text>): (Text, Text) -> bool {
    (a: Text, b: Text) => IndexOf(words, a) <= IndexOf(words, b)
  }

  /** `[...list].sort(...)` by position in the vocabulary. */
  function SortBy(words: seq<Text>, list: seq<Text>): (r: seq<Text>)
    ensures multiset(r) == multiset(list)
  {
    Sort(list, ByIndex(words))
  }

  /** `words.filter((word) => list.includes(word))`. */
  function Select(words: seq<Text>, list: seq<Text>): (r: seq<Text>)
    ensures forall w :: w in r <==> w in words && w in list
  {
    if words == [] then []
    else
      assert words == [words[0]] + words[1..];
      (if words[0] in list then [words[0]] else []) + Select(words[1..], list)
  }

  predicate Within(words: seq<Text>, list: seq<Text>) { forall w :: w in list ==> w in words }

  lemma ByIndexIsOrder(words: seq<Text>)
    ensures TotalPreorder(ByIndex(words))
  {
  }

  lemma WordsDoNotTie(words: seq<Text>, list: seq<Text>)
    requires Within(words, list)
    ensures NoTies(multiset(list), ByIndex(words))
  {
    forall a, b | a in multiset(list) && b in multiset(list) && ByIndex(words)(a, b) && ByIndex(words)(b, a) ensures a == b {
      assert a in list && b in list;
    }
  }

  lemma SortByElements(words: seq<Text>, list: seq<Text>)
    ensures forall w :: w in SortBy(words, list) <==> w in list
    ensures |SortBy(words, list)| == |list|
  {
    var r := SortBy(words, list);
    assert |multiset(r)| == |r| && |multiset(list)| == |list|;
    forall w ensures w in r <==> w in list {
      assert w in r <==> w in multiset(r);
      assert w in list <==> w in multiset(list);
    }
  }

  lemma {:induction false} IndexIs(words: seq<Text>, i: nat)
    requires Distinct(words) && i < |words|
    ensures IndexOf(words, words[i]) == i
  {
    var j := IndexOf(words, words[i]);
    assert words[j] == words[i];
  }

  lemma {:induction false} SelectKeepsApart(words: seq<Text>, list: seq<Text>)
    requires Distinct(words)
    ensures Distinct(Select(words, list))
  {
    if words != [] {
      SelectKeepsApart(words[1..], list);
      var rest := Select(words[1..], list);
      forall i | 0 <= i < |rest| ensures rest[i] != words[0] { assert rest[i] in words[1..]; }
    }
  }

  lemma {:induction false} SelectInOrder(words: seq<Text>, list: seq<Text>)
    requires Distinct(words)
    ensures Sorted(Select(words, list), ByIndex(words))
  {
    if words != [] {
      SelectInOrder(words[1..], list);
      var rest := Select(words[1..], list);
      InOrderBehind(words, rest);
      FirstInOrder(words, rest);
      hide Sorted, ByIndex;
      assert words[0] !in list ==> Select(words, list) == rest by { assert [] + rest == rest; }
    }
  }

  /** Words after the first come in the same order with it and without it. */
  lemma InOrderBehind(words: seq<Text>, rest: seq<Text>)
    requires words != [] && Distinct(words) && Within(words[1..], rest) && Sorted(rest, ByIndex(words[1..]))
    ensures Sorted(rest, ByIndex(words))
  {
    forall i, j | 0 <= i < j < |rest| ensures ByIndex(words)(rest[i], rest[j]) {
      assert rest[i] in words[1..] && rest[j] in words[1..];
      assert ByIndex(words[1..])(rest[i], rest[j]);
    }
  }

  lemma FirstInOrder(words: seq<Text>, rest: seq<Text>)
    requires words != [] && Within(words[1..], rest) && Sorted(rest, ByIndex(words))
    ensures Sorted([words[0]] + rest, ByIndex(words))
  {
    var all := [words[0]] + rest;
    forall i, j | 0 <= i < j < |all| ensures ByIndex(words)(all[i], all[j]) {
      assert all[j] == rest[j - 1] && rest[j - 1] in words[1..];
      if i > 0 { assert ByIndex(words)(rest[i - 1], rest[j - 1]); }
    }
  }

  /** Sorting a list by the vocabulary is selecting it from the vocabulary exactly when nothing is listed twice. */
  lemma SortIsSelect(words: seq<Text>, list: seq<Text>)
    requires Distinct(words) && Within(words, list)
    ensures SortBy(words, list) == Select(words, list) <==> Distinct(list)
  {
    SelectKeepsApart(words, list);
    if SortBy(words, list) == Select(words, list) { PermutationDistinct(Select(words, list), list); }
    if Distinct(list) {
      SelectInOrder(words, list);
      SameElements(list, Select(words, list));
      ByIndexIsOrder(words);
      WordsDoNotTie(words, list);
      SortOfPermutation(list, Select(words, list), ByIndex(words));
      WordsDoNotTie(words, Select(words, list));
      SortOfSorted(Select(words, list), ByIndex(words));
    }
  }

  lemma {:induction false} SelectTwice(words: seq<Text>, list: seq<Text>, other: seq<Text>)
    requires forall w :: w in words ==> (w in list <==> w in other)
    ensures Select(words, list) == Select(words, other)
  {
    if words != [] {
      assert words == [words[0]] + words[1..];
      SelectTwice(words[1..], list, other);
    }
  }

  /** Selecting again changes nothing. */
  lemma SelectIdempotent(words: seq<Text>, list: seq<Text>)
    ensures Select(words, Select(words, list)) == Select(words, list)
  {
    SelectTwice(words, Select(words, list), list);
  }

  /** A list stays as it is under sorting exactly when it is in order already. */
  lemma SortStays(words: seq<Text>, list: seq<Text>)
    requires Within(words, list)
    ensures SortBy(words, list) == list <==> Sorted(list, ByIndex(words))
  {
    ByIndexIsOrder(words);
    SortSorted(list, ByIndex(words));
    if Sorted(list, ByIndex(words)) {
      WordsDoNotTie(words, list);
      SortOfSorted(list, ByIndex(words));
    }
  }
}
