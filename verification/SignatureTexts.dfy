/** The text of a signature, unit for unit: its separators, its fixed words and the order of its lists. */
module SignatureTexts {
  import opened Wrappers
  import opened JsText
  import opened Collections
  import opened Sorting
  import opened DecimalText
  import opened Delimited
  import opened Vocabulary
  import opened Signatures
  import opened SignatureRoundTrip
  import opened Fingerprints
  import Bits
  import Fips180
  import Sha256
  import Words
  import Utf8

  // ---- The order of the lists -----------------------------------------------------------------

  const ROLES: seq<string> :=
    ["CEO", "CFO", "COO", "PRESIDENT", "CHAIRMAN", "DIRECTOR", "OFFICER", "TEN_PERCENT_OWNER", "OTHER"]

  const OWNERS: seq<string> := ["SELF", "SPOUSE", "JOINT", "CHILD", "DEPENDENT", "OTHER", "UNSPECIFIED"]

  predicate IsAscii(s: string) { forall i :: 0 <= i < |s| ==> s[i] as int < 128 }

  predicate AllAscii(words: seq<string>) { forall i :: 0 <= i < |words| ==> IsAscii(words[i]) }

  /** The pieces of a filter's text are the listed words, in the order of a vocabulary. */
  ghost predicate ListsInOrder(vocabulary: seq<string>, list: seq<Text>, pieces: seq<Text>)
    requires AllAscii(vocabulary)
  {
    && multiset(pieces) == multiset(list)
    && (forall i :: 0 <= i < |pieces| ==> exists k :: 0 <= k < |vocabulary| && pieces[i] == Ascii(vocabulary[k]))
    && forall i, j, k, l | 0 <= i < j < |pieces| && 0 <= k < |vocabulary| && 0 <= l < |vocabulary| ::
      pieces[i] == Ascii(vocabulary[k]) && pieces[j] == Ascii(vocabulary[l]) ==> k <= l
  }

  lemma RolesAre()
    ensures AllAscii(ROLES) && |InsiderRoles()| == 9
    ensures forall k :: 0 <= k < 9 ==> InsiderRoles()[k] == Ascii(ROLES[k])
  {
    hide Ascii;
  }

  lemma OwnersAre()
    ensures AllAscii(OWNERS) && |CongressOwners()| == 7
    ensures forall k :: 0 <= k < 7 ==> CongressOwners()[k] == Ascii(OWNERS[k])
  {
    hide Ascii;
  }

  ghost predicate Spelled(words: seq<Text>, vocabulary: seq<string>) {
    AllAscii(vocabulary) && |words| == |vocabulary| && forall k :: 0 <= k < |words| ==> words[k] == Ascii(vocabulary[k])
  }

  lemma PiecesInOrder(words: seq<Text>, vocabulary: seq<string>, list: seq<Text>)
    requires Spelled(words, vocabulary) && Distinct(words) && Within(words, list)
    ensures ListsInOrder(vocabulary, list, SortBy(words, list))
  {
    var pieces := SortBy(words, list);
    SortByElements(words, list);
    ByIndexIsOrder(words);
    SortSorted(list, ByIndex(words));
    hide Ascii, SortBy;
    forall i | 0 <= i < |pieces| ensures exists k :: 0 <= k < |vocabulary| && pieces[i] == Ascii(vocabulary[k]) {
      assert pieces[i] in list && pieces[i] in words;
      var k :| 0 <= k < |words| && words[k] == pieces[i];
    }
    forall i, j, k, l | 0 <= i < j < |pieces| && 0 <= k < |vocabulary| && 0 <= l < |vocabulary|
                        && pieces[i] == Ascii(vocabulary[k]) && pieces[j] == Ascii(vocabulary[l])
      ensures k <= l
    {
      IndexIs(words, k);
      IndexIs(words, l);
      assert ByIndex(words)(pieces[i], pieces[j]);
    }
  }

  // ---- Filters and scopes ---------------------------------------------------------------------

  /** A dash for no filter; otherwise the words, in order, with a plus between them. */
  ghost predicate IsFilterText(vocabulary: seq<string>, filter: Option<seq<Text>>, text: Text)
    requires AllAscii(vocabulary)
  {
    match filter
    case None => text == [0x2D]
    case Some(list) => if list == [] then text == [] else ListsInOrder(vocabulary, list, Split(text, 0x2B))
  }

  lemma FilterTextIs(words: seq<Text>, vocabulary: seq<string>, filter: Option<seq<Text>>)
    requires Spelled(words, vocabulary) && Distinct(words) && AllPlain(words)
    requires filter.Some? ==> Within(words, filter.value)
    ensures IsFilterText(vocabulary, filter, FilterText(words, filter))
  {
    if filter.Some? && filter.value != [] {
      var pieces := SortBy(words, filter.value);
      PiecesInOrder(words, vocabulary, filter.value);
      SortByElements(words, filter.value);
      hide Spelled, ListsInOrder, SortBy, IsPlain;
      forall i | 0 <= i < |pieces| ensures 0x2B !in pieces[i] {
        assert pieces[i] in words;
        if 0x2B in pieces[i] { PlainUnits(pieces[i], 0x2B); }
      }
      SplitOfJoin(pieces, 0x2B);
    }
  }

  /** The same ids, each once, in ascending order. */
  ghost predicate Canonicalizes(ids: seq<Text>, canonical: seq<Text>) {
    && (forall id :: id in canonical <==> id in ids)
    && forall i, j :: 0 <= i < j < |canonical| ==> Less(canonical[i], canonical[j])
  }

  /** A selection of one reads as that actor; a larger one lists its ids with a plus between them. */
  ghost predicate IsSelectionText(canonical: seq<Text>, text: Text) {
    if |canonical| == 1 then text == Ascii("actor:") + canonical[0]
    else |text| >= 7 && text[..7] == Ascii("actors:") && Split(text[7..], 0x2B) == canonical
  }

  ghost predicate IsScopeText(scope: ActorScope, text: Text) {
    match scope
    case AnyActor => text == Ascii("any")
    case Group(id) => text == Ascii("group:") + id
    case Actor(id) => text == Ascii("actor:") + id
    case Actors(ids) => exists canonical :: Canonicalizes(ids, canonical) && IsSelectionText(canonical, text)
  }

  lemma LongTextIs(canonical: seq<Text>)
    requires AllActorIds(canonical) && |canonical| > 1
    ensures IsSelectionText(canonical, Ascii("actors:") + Join(canonical, 0x2B))
  {
    hide Join, Split, AllActorIds, IsActorScopeId;
    ActorIdPieces(canonical);
    SplitOfJoin(canonical, 0x2B);
    var text := Ascii("actors:") + Join(canonical, 0x2B);
    assert text[..7] == Ascii("actors:") && text[7..] == Join(canonical, 0x2B);
  }

  lemma CanonicalIsCanonical(ids: seq<Text>)
    ensures Canonicalizes(ids, CanonicalActorIds(ids))
  {
    hide CanonicalActorIds, Less;
    CanonicalIds(ids);
  }

  lemma SelectionTextIs(ids: seq<Text>)
    requires ids != [] && ScopeOk(Actors(ids))
    ensures ScopeSignature(Actors(ids)).Some? && IsScopeText(Actors(ids), ScopeSignature(Actors(ids)).value)
  {
    hide CanonicalActorIds, Join, Canonicalizes, IsCleanId, AllActorIds, IsSelectionText, Ascii;
    var canonical := CanonicalActorIds(ids);
    CanonicalIsCanonical(ids);
    SelectsNobody(ids);
    CleanIdsAre(canonical);
    if |canonical| > 1 { LongTextIs(canonical); } else { OneTextIs(canonical); }
    assert IsSelectionText(canonical, ScopeSignature(Actors(ids)).value);
  }

  lemma OneTextIs(canonical: seq<Text>)
    requires |canonical| == 1
    ensures IsSelectionText(canonical, Ascii("actor:") + canonical[0])
  {
    hide Ascii;
  }

  lemma ScopeTextIs(scope: ActorScope)
    requires ScopeSignature(scope).Some? && ScopeOk(scope)
    ensures IsScopeText(scope, ScopeSignature(scope).value)
  {
    match scope
    case Actors(ids) =>
      SelectsNobody(ids);
      hide ScopeOk, ScopeSignature, IsScopeText;
      SelectionTextIs(ids);
    case Actor(id) => assert |[id]| == 1;
    case AnyActor =>
    case Group(_) =>
  }

  // ---- Signatures -----------------------------------------------------------------------------

  /** The decimal text of a number, without a leading zero. */
  ghost predicate IsDecimal(n: nat, text: Text) {
    text != [] && AllDigits(text) && Number(text) == n && (text[0] == 0x30 ==> n == 0)
  }

  lemma {:induction false} DecimalIs(n: nat)
    ensures IsDecimal(n, Decimal(n))
  {
    NumberOfDecimal(n);
    if n >= 10 {
      DecimalIs(n / 10);
      assert Decimal(n)[0] == Decimal(n / 10)[0];
    }
  }

  /** The fields between the bars of a metric's signature. */
  ghost predicate AreFields(m: Metric, fields: seq<Text>)
    requires AllAscii(ROLES) && AllAscii(OWNERS)
  {
    match m
    case Insider(measure, lookback, roles) =>
      && |fields| == 5 && fields[0] == Ascii("INSIDER_ACTIVITY") && fields[1] == measure && IsDecimal(lookback, fields[2])
      && fields[3] == Ascii("-") && IsFilterText(ROLES, roles, fields[4])
    case Congress(measure, lookback, scope, chamber, owners) =>
      && |fields| == 6 && fields[0] == Ascii("CONGRESS_ACTIVITY") && fields[1] == measure && IsDecimal(lookback, fields[2])
      && IsScopeText(scope, fields[3]) && fields[4] == chamber && IsFilterText(OWNERS, owners, fields[5])
  }

  lemma VocabulariesSpelled()
    ensures AllAscii(ROLES) && AllAscii(OWNERS) && Spelled(InsiderRoles(), ROLES) && Spelled(CongressOwners(), OWNERS)
  {
    RolesAre();
    OwnersAre();
    hide Ascii, InsiderRoles, CongressOwners;
  }

  lemma FilterFieldIs(m: Metric)
    requires WellTyped(m) && AllAscii(ROLES) && AllAscii(OWNERS)
    ensures IsFilterText(if m.Insider? then ROLES else OWNERS, Filter(m), FilterText(FilterWords(m), Filter(m)))
  {
    hide InsiderRoles, CongressOwners, InsiderMeasures, CongressMeasures, Chambers, IsFilterText, FilterText, Spelled, AllPlain,
      Distinct, Within;
    VocabulariesSpelled();
    WordsArePlain(m);
    FilterTextIs(FilterWords(m), if m.Insider? then ROLES else OWNERS, Filter(m));
  }

  lemma PartsAreFields(m: Metric, scopeText: Text)
    requires WellTyped(m) && if m.Insider? then scopeText == Dash() else IsScopeText(m.scope, scopeText)
    requires AllAscii(ROLES) && AllAscii(OWNERS)
    ensures AreFields(m, Parts(m, scopeText))
  {
    hide Ascii, Decimal, InsiderRoles, CongressOwners, IsFilterText, IsScopeText, FilterText, IsDecimal, WellTyped, AllAscii;
    DecimalIs(m.lookback);
    FilterFieldIs(m);
  }

  /** Split at the bars, the signature of a metric whose scope can be read back gives these fields. */
  lemma SignatureFields(m: Metric)
    requires WellTyped(m) && Signature(m).Some? && (m.Congress? ==> ScopeOk(m.scope))
    ensures AllAscii(ROLES) && AllAscii(OWNERS) && AreFields(m, Split(Signature(m).value, 0x7C))
  {
    hide WellTyped, Join, Split, Parts, ScopeOk, ScopeSignature, AreFields, IsScopeText;
    VocabulariesSpelled();
    DashHasNoBar();
    if m.Congress? {
      ScopeRoundTrips(m.scope);
      ScopeTextIs(m.scope);
    }
    var scopeText := ScopeText(m, ScopeSignature).value;
    PartsAreFields(m, scopeText);
    PartsSplit(m, scopeText);
  }

  // ---- Fingerprints ---------------------------------------------------------------------------

  /** The three parts of a long selection's text are the word, how many ids there are, and their digest. */
  ghost predicate IsDigestText(canonical: seq<Text>, pieces: seq<Text>) {
    && |pieces| == 3 && pieces[0] == Ascii("actors") && IsDecimal(|canonical|, pieces[1])
    && exists ids :: Split(ids, 0x2B) == canonical && DigestOf(ids, pieces[2])
  }

  /** The text spells the SHA-256 hash value of the string's UTF-8 bits. */
  ghost predicate DigestOf(text: Text, digest: Text) {
    Words.AllBytes(Utf8.Encode(text)) && Sha256.Spells(digest, Fips180.Sha256(Bits.ByteBits(Utf8.Encode(text))))
  }

  lemma HexHasNoColon(t: Text)
    ensures 0x3A !in Sha256.HexDigest(t)
  {
    hide Sha256.HexDigest;
    Sha256.HexDigestDetermines(t, t);
  }

  /** A selection of two or more ids that can be written down contributes their number and their digest. */
  lemma LongFingerprintText(scope: ActorScope)
    requires IsLongSelection(scope) && ScopeOk(scope)
    ensures FingerprintScope(scope).Some?
    ensures IsDigestText(ActorScopeActorIds(scope).value, Split(FingerprintScope(scope).value, 0x3A))
  {
    hide CanonicalActorIds, Join, Split, Sha256.HexDigest, IsCleanId, AllActorIds, Ascii, Decimal, IsDecimal;
    var canonical := ActorScopeActorIds(scope).value;
    var ids := Join(canonical, 0x2B);
    CleanIdsAre(canonical);
    ActorIdPieces(canonical);
    SplitOfJoin(canonical, 0x2B);
    Sha256.HexDigestSpells(ids);
    assert DigestOf(ids, Sha256.HexDigest(ids));
    hide DigestOf;
    DigestTextSplits(|canonical|, Sha256.HexDigest(ids), ids);
  }

  lemma DigestTextSplits(n: nat, digest: Text, ids: Text)
    requires digest == Sha256.HexDigest(ids)
    ensures Split(ActorsPrefix() + Decimal(n) + Colon() + digest, 0x3A) == [Ascii("actors"), Decimal(n), digest]
    ensures IsDecimal(n, Decimal(n))
  {
    hide Split, Decimal, Ascii, Sha256.HexDigest, IsDecimal, ActorsPrefix, Colon;
    HexHasNoColon(ids);
    DecimalIs(n);
    DecimalHasNoColon(n);
    PrefixHasColon();
    var word := Ascii("actors");
    assert ActorsPrefix() + Decimal(n) + Colon() + digest == word + [0x3A] + (Decimal(n) + [0x3A] + digest);
    ThreePieces(word, Decimal(n), digest);
  }

  lemma DecimalHasNoColon(n: nat)
    ensures 0x3A !in Decimal(n)
  {
  }

  lemma PrefixHasColon()
    ensures ActorsPrefix() == Ascii("actors") + [0x3A] && Colon() == [0x3A] && 0x3A !in Ascii("actors")
  {
  }

  lemma ThreePieces(a: Text, b: Text, c: Text)
    requires 0x3A !in a && 0x3A !in b && 0x3A !in c
    ensures Split(a + [0x3A] + (b + [0x3A] + c), 0x3A) == [a, b, c]
  {
    hide Split;
    SplitOfConcat(a, b + [0x3A] + c, 0x3A);
    SplitOfConcat(b, c, 0x3A);
    SplitOfPiece(a, 0x3A);
    SplitOfPiece(b, 0x3A);
    SplitOfPiece(c, 0x3A);
    assert [a] + ([b] + [c]) == [a, b, c];
  }

  /** The presets, and no other number, are lookbacks. */
  lemma PresetsAre(n: nat)
    ensures n in LOOKBACKS <==> n in {5, 10, 20, 30, 60, 90, 120, 180, 250}
  {
  }
}
