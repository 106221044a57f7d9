/** `join` and `split` with a one-unit separator. */
module Delimited {
  import opened JsText

  function Join(parts: seq<Text>, separator: CodeUnit): Text {
    if parts == [] then []
    else if |parts| == 1 then parts[0]
    else parts[0] + [separator] + Join(parts[1..], separator)
  }

  function Split(t: Text, separator: CodeUnit): (parts: seq<Text>)
    ensures parts != []
  {
    if t == [] then [[]]
    else
      var rest := Split(t[1..], separator);
      if t[0] == separator then [[]] + rest else [[t[0]] + rest[0]] + rest[1..]
  }

  /** Joining the pieces of a text gives it back. */
  lemma {:induction false} JoinOfSplit(t: Text, separator: CodeUnit)
    ensures Join(Split(t, separator), separator) == t
  {
    if t != [] {
      JoinOfSplit(t[1..], separator);
      var rest := Split(t[1..], separator);
      assert t == [t[0]] + t[1..];
      if t[0] == separator {
        assert ([[]] + rest)[1..] == rest;
      } else {
        var head: Text := [t[0]] + rest[0];
        assert ([head] + rest[1..])[1..] == rest[1..];
      }
    }
  }

  /** No piece holds the separator. */
  lemma {:induction false} PiecesAreFree(t: Text, separator: CodeUnit)
    ensures forall i :: 0 <= i < |Split(t, separator)| ==> separator !in Split(t, separator)[i]
  {
    if t != [] { PiecesAreFree(t[1..], separator); }
  }

  lemma {:induction false} SplitOfConcat(a: Text, b: Text, separator: CodeUnit)
    ensures Split(a + [separator] + b, separator) == Split(a, separator) + Split(b, separator)
  {
    var t := a + [separator] + b;
    if a == [] {
      assert t[1..] == b;
    } else {
      assert t[1..] == a[1..] + [separator] + b;
      SplitOfConcat(a[1..], b, separator);
    }
  }

  lemma {:induction false} SplitOfPiece(a: Text, separator: CodeUnit)
    ensures separator !in a ==> Split(a, separator) == [a]
    ensures separator in a ==> |Split(a, separator)| >= 2
  {
    if a != [] {
      assert a == [a[0]] + a[1..];
      SplitOfPiece(a[1..], separator);
    }
  }

  /** Pieces that do not hold the separator are read back. */
  lemma {:induction false} SplitOfJoin(parts: seq<Text>, separator: CodeUnit)
    requires parts != [] && forall i :: 0 <= i < |parts| ==> separator !in parts[i]
    ensures Split(Join(parts, separator), separator) == parts
  {
    SplitOfPiece(parts[0], separator);
    if |parts| > 1 {
      SplitOfJoin(parts[1..], separator);
      SplitOfConcat(parts[0], Join(parts[1..], separator), separator);
      assert parts == [parts[0]] + parts[1..];
    } else {
      assert parts == [parts[0]];
    }
  }

  /** A piece that holds the separator shows as extra pieces. */
  lemma {:induction false} SplitCounts(parts: seq<Text>, separator: CodeUnit)
    requires parts != []
    ensures |Split(Join(parts, separator), separator)| >= |parts|
    ensures (exists i :: 0 <= i < |parts| && separator in parts[i]) ==>
      |Split(Join(parts, separator), separator)| > |parts|
  {
    SplitOfPiece(parts[0], separator);
    if |parts| > 1 {
      SplitCounts(parts[1..], separator);
      SplitOfConcat(parts[0], Join(parts[1..], separator), separator);
      if i :| 0 < i < |parts| && separator in parts[i] { assert parts[1..][i - 1] == parts[i]; }
    }
  }
}
