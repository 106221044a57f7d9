/** Printing, parsing and building a metric agree: exactly when, and on what. */
module SignatureRoundTrip {
  import opened Wrappers
  import opened JsText
  import opened Collections
  import opened Sorting
  import opened TextSorting
  import opened DecimalText
  import opened Delimited
  import opened Vocabulary
  import opened Signatures

  // ---- The vocabularies -----------------------------------------------------------------------

  /** Capital letters and underscores, so neither separator and no dash. */
  predicate IsPlain(word: Text) { word != [] && forall i :: 0 <= i < |word| ==> 65 <= word[i] <= 90 || word[i] == 95 }

  predicate AllPlain(words: seq<Text>) { forall w :: w in words ==> IsPlain(w) }

  lemma Plain(s: string)
    requires s != [] && forall i :: 0 <= i < |s| ==> 65 <= s[i] as int <= 90 || s[i] as int == 95
    ensures IsPlain(Ascii(s)) && |Ascii(s)| == |s|
  {
  }

  lemma RolesArePlain()
    ensures AllPlain(InsiderRoles()) && Distinct(InsiderRoles())
  {
    assert Ascii("CEO")[1] != Ascii("CFO")[1] && Ascii("CEO")[1] != Ascii("COO")[1] && Ascii("CFO")[1] != Ascii("COO")[1];
    assert Ascii("CHAIRMAN")[0] != Ascii("DIRECTOR")[0];
    hide Ascii, IsPlain;
    Plain("CEO"); Plain("CFO"); Plain("COO"); Plain("PRESIDENT"); Plain("CHAIRMAN"); Plain("DIRECTOR");
    Plain("OFFICER"); Plain("TEN_PERCENT_OWNER"); Plain("OTHER");
  }

  lemma OwnersArePlain()
    ensures AllPlain(CongressOwners()) && Distinct(CongressOwners())
  {
    assert Ascii("JOINT")[0] != Ascii("CHILD")[0] && Ascii("JOINT")[0] != Ascii("OTHER")[0];
    assert Ascii("CHILD")[0] != Ascii("OTHER")[0];
    hide Ascii, IsPlain;
    Plain("SELF"); Plain("SPOUSE"); Plain("JOINT"); Plain("CHILD"); Plain("DEPENDENT"); Plain("OTHER");
    Plain("UNSPECIFIED");
  }

  lemma MeasuresArePlain()
    ensures AllPlain(InsiderMeasures()) && AllPlain(CongressMeasures()) && AllPlain(Chambers())
  {
    hide Ascii, IsPlain;
    Plain("BUYERS"); Plain("SELLERS"); Plain("PURCHASE_VALUE"); Plain("SALE_VALUE"); Plain("PURCHASES");
    Plain("SALES"); Plain("MINIMUM_PURCHASE_VALUE"); Plain("ANY"); Plain("HOUSE"); Plain("SENATE");
  }

  lemma KindsArePlain()
    ensures IsPlain(InsiderKind()) && IsPlain(CongressKind()) && InsiderKind() != CongressKind()
  {
    hide Ascii, IsPlain;
    Plain("INSIDER_ACTIVITY"); Plain("CONGRESS_ACTIVITY");
  }

  predicate HasSmallLetter(word: Text) { exists i :: 0 <= i < |word| && 97 <= word[i] <= 122 }

  lemma Small(s: string, k: nat)
    requires k < |s| && 97 <= s[k] as int <= 122
    requires forall i :: 0 <= i < |s| ==> s[i] as int < 124
    ensures HasSmallLetter(Ascii(s)) && BAR !in Ascii(s)
  {
    assert 97 <= Ascii(s)[k] <= 122;
  }

  predicate NoneIsPlain(names: seq<Text>) { forall name :: name in names ==> HasSmallLetter(name) && BAR !in name }

  lemma MethodsAreNotPlain()
    ensures NoneIsPlain(InheritedMethods())
  {
    hide Ascii, HasSmallLetter;
    Small("constructor", 0); Small("toString", 0); Small("toLocaleString", 0); Small("valueOf", 0);
    Small("hasOwnProperty", 0); Small("isPrototypeOf", 0); Small("propertyIsEnumerable", 0);
  }

  lemma AccessorsAreNotPlain()
    ensures NoneIsPlain(InheritedAccessors())
  {
    hide Ascii, HasSmallLetter;
    Small("__proto__", 2); Small("__defineGetter__", 2); Small("__defineSetter__", 2);
    Small("__lookupGetter__", 2); Small("__lookupSetter__", 2);
  }

  lemma InheritedNamesAreNotPlain()
    ensures NoneIsPlain(InheritedNames())
  {
    MethodsAreNotPlain();
    AccessorsAreNotPlain();
    hide InheritedMethods, InheritedAccessors, HasSmallLetter;
  }

  // ---- Filters --------------------------------------------------------------------------------

  lemma {:induction false} UnitsOfJoin(parts: seq<Text>, separator: CodeUnit, u: CodeUnit)
    requires u in Join(parts, separator)
    ensures u == separator || exists i :: 0 <= i < |parts| && u in parts[i]
  {
    if |parts| > 1 && u !in parts[0] && u != separator {
      UnitsOfJoin(parts[1..], separator, u);
      var i :| 0 <= i < |parts[1..]| && u in parts[1..][i];
      assert u in parts[i + 1];
    }
  }

  /** A plain list's text is not the dash and holds no bar. */
  lemma FilterTextIsPlain(words: seq<Text>, list: seq<Text>)
    requires AllPlain(words) && Within(words, list)
    ensures BAR !in FilterText(words, Some(list)) && FilterText(words, Some(list)) != Dash()
  {
    hide IsPlain;
    SortByElements(words, list);
    var sorted := SortBy(words, list);
    hide SortBy;
    var t := Join(sorted, PLUS);
    if u :| u in t && (u == BAR || u == 0x2D) {
      UnitsOfJoin(sorted, PLUS, u);
      var i :| 0 <= i < |sorted| && u in sorted[i];
      assert sorted[i] in list;
      PlainUnits(sorted[i], u);
    }
    assert 0x2D !in t && BAR !in t;
    assert Dash()[0] == 0x2D;
  }

  lemma PlainUnits(word: Text, u: CodeUnit)
    requires IsPlain(word)
    ensures u in word ==> u != BAR && u != PLUS && u != 0x2D
    ensures word != []
  {
  }

  lemma PlainPieces(words: seq<Text>, list: seq<Text>, u: CodeUnit)
    requires AllPlain(words) && Within(words, list) && (u == PLUS || u == BAR)
    ensures forall i :: 0 <= i < |list| ==> u !in list[i]
  {
    hide IsPlain;
    forall i | 0 <= i < |list| ensures u !in list[i] {
      assert list[i] in list;
      PlainUnits(list[i], u);
    }
  }

  /** A filter's text reads back as the sorted list; an empty list's text does not read back. */
  lemma FilterReads(words: seq<Text>, list: Option<seq<Text>>)
    requires AllPlain(words) && (list.Some? ==> Within(words, list.value))
    ensures ReadFilter(words, FilterText(words, list)) ==
      if list.None? then Some(None) else if list.value == [] then None else Some(Some(SortBy(words, list.value)))
  {
    hide IsPlain;
    if list.Some? {
      FilterTextIsPlain(words, list.value);
      SortByElements(words, list.value);
      var sorted := SortBy(words, list.value);
      assert Within(words, sorted);
      if sorted == [] {
        assert Split([], PLUS) == [[]];
        assert [] !in words by { if [] in words { PlainUnits([], BAR); } }
        assert [] in Split([], PLUS);
      } else {
        PlainPieces(words, sorted, PLUS);
        SplitOfJoin(sorted, PLUS);
      }
    }
  }

  predicate FilterOk(list: Option<seq<Text>>) { list.None? || (list.value != [] && Distinct(list.value)) }

  /** The text of a filter reads back as the built filter exactly when the filter is neither empty nor repetitive. */
  lemma FilterRoundTrips(words: seq<Text>, list: Option<seq<Text>>)
    requires AllPlain(words) && Distinct(words) && (list.Some? ==> Within(words, list.value))
    ensures ReadFilter(words, FilterText(words, list)) == Some(BuildFilter(words, list)) <==> FilterOk(list)
  {
    FilterReads(words, list);
    if list.Some? { SortIsSelect(words, list.value); }
  }

  /** A filter that was read prints as it was read exactly when it was read in order. */
  lemma FilterReprints(words: seq<Text>, raw: Text)
    requires AllPlain(words) && ReadFilter(words, raw).Some?
    ensures var list := ReadFilter(words, raw).value;
      && (list.Some? ==> Within(words, list.value) && list.value != [])
      && (FilterText(words, list) == raw <==> list.None? || Sorted(list.value, ByIndex(words)))
  {
    hide IsPlain;
    var list := ReadFilter(words, raw).value;
    if list.Some? {
      JoinOfSplit(raw, PLUS);
      SortStays(words, list.value);
      FilterReads(words, list);
    }
  }

  // ---- Scopes ---------------------------------------------------------------------------------

  lemma PrefixReads(prefix: Text, t: Text)
    ensures StartsWith(prefix + t, prefix) && (prefix + t)[|prefix|..] == t
    ensures forall i :: 0 <= i < |prefix| ==> (prefix + t)[i] == prefix[i]
  {
  }

  lemma StartsDiffer(t: Text, prefix: Text, k: nat)
    requires k < |t| && k < |prefix| && t[k] != prefix[k]
    ensures !StartsWith(t, prefix) && t != prefix
  {
    assert |prefix| <= |t| ==> t[..|prefix|][k] == t[k];
  }

  /** The four kinds of scope text are told apart by a unit of their prefixes. */
  lemma PrefixUnits()
    ensures |AnyText()| == 3 && AnyText()[1] == 110
    ensures |ActorPrefix()| == 6 && ActorPrefix()[0] == 97 && ActorPrefix()[1] == 99 && ActorPrefix()[5] == 58
    ensures |ActorsPrefix()| == 7 && ActorsPrefix()[0] == 97 && ActorsPrefix()[1] == 99 && ActorsPrefix()[5] == 115
    ensures |GroupPrefix()| == 6 && GroupPrefix()[0] == 103 && GroupPrefix()[1] == 114
    ensures BAR !in AnyText() && BAR !in ActorPrefix() && BAR !in ActorsPrefix() && BAR !in GroupPrefix()
  {
  }

  lemma ReadGroup(id: Text)
    ensures ReadScope(GroupPrefix() + id) == if id == [] then None else Some(Group(id))
  {
    PrefixUnits();
    hide Ascii, StartsWith, IsActorScopeId, CanonicalActorIds, Join, Split;
    var t := GroupPrefix() + id;
    PrefixReads(GroupPrefix(), id);
    StartsDiffer(t, AnyText(), 1);
    StartsDiffer(t, ActorPrefix(), 0);
    StartsDiffer(t, ActorsPrefix(), 0);
  }

  lemma ReadActor(id: Text)
    ensures ReadScope(ActorPrefix() + id) == if id == [] then None else Some(Actors([id]))
  {
    PrefixUnits();
    hide Ascii, StartsWith, IsActorScopeId, CanonicalActorIds, Join, Split;
    PrefixReads(ActorPrefix(), id);
    StartsDiffer(ActorPrefix() + id, AnyText(), 1);
  }

  predicate AllActorIds(ids: seq<Text>) { forall i :: 0 <= i < |ids| ==> IsActorScopeId(ids[i]) }

  lemma ReadActors(t: Text)
    ensures var ids := Split(t, PLUS);
      ReadScope(ActorsPrefix() + t) ==
      if 2 <= |ids| <= ACTOR_SCOPE_MAX_ACTORS && AllActorIds(ids) && Join(CanonicalActorIds(ids), PLUS) == Join(ids, PLUS)
      then Some(Actors(ids)) else None
  {
    PrefixUnits();
    hide Ascii, StartsWith, IsActorScopeId, CanonicalActorIds, Join, Split;
    PrefixReads(ActorsPrefix(), t);
    StartsDiffer(ActorsPrefix() + t, AnyText(), 1);
    StartsDiffer(ActorsPrefix() + t, ActorPrefix(), 5);
  }

  // ---- Canonical ids --------------------------------------------------------------------------

  lemma {:induction false} DeduplicatedIsDistinct(ids: seq<Text>)
    ensures Distinct(Deduplicated(ids))
    ensures Distinct(ids) ==> Deduplicated(ids) == ids
  {
    if ids != [] {
      DeduplicatedIsDistinct(ids[..|ids| - 1]);
      assert ids == ids[..|ids| - 1] + [ids[|ids| - 1]];
    }
  }

  /** Canonical ids are the given ids, each once, in order. */
  lemma CanonicalIds(ids: seq<Text>)
    ensures forall id :: id in CanonicalActorIds(ids) <==> id in ids
    ensures Distinct(CanonicalActorIds(ids)) && Sorted(CanonicalActorIds(ids), TextOrder())
    ensures forall i, j :: 0 <= i < j < |CanonicalActorIds(ids)| ==> Less(CanonicalActorIds(ids)[i], CanonicalActorIds(ids)[j])
  {
    var r := CanonicalActorIds(ids);
    hide AtMost, Distinct;
    DeduplicatedIsDistinct(ids);
    PermutationDistinct(Deduplicated(ids), r);
    TextOrderIsOrder();
    SortSorted(Deduplicated(ids), TextOrder());
    forall id ensures id in r <==> id in ids {
      assert id in r <==> id in multiset(r);
      assert id in Deduplicated(ids) <==> id in multiset(Deduplicated(ids));
    }
  }

  /** They depend only on which ids are given. */
  lemma CanonicalIdsUnique(ids: seq<Text>, others: seq<Text>)
    requires forall id :: id in ids <==> id in others
    ensures CanonicalActorIds(ids) == CanonicalActorIds(others)
  {
    hide AtMost, CanonicalActorIds;
    CanonicalIds(ids);
    CanonicalIds(others);
    SameElements(CanonicalActorIds(ids), CanonicalActorIds(others));
    TextOrderIsOrder();
    SortedUnique(CanonicalActorIds(ids), CanonicalActorIds(others), TextOrder());
  }

  lemma CanonicalIdsStay(ids: seq<Text>)
    ensures CanonicalActorIds(CanonicalActorIds(ids)) == CanonicalActorIds(ids)
  {
    CanonicalIds(ids);
    CanonicalIdsUnique(CanonicalActorIds(ids), ids);
    hide AtMost;
  }

  lemma CanonicalSingle(id: Text)
    ensures CanonicalActorIds([id]) == [id]
  {
    DeduplicatedIsDistinct([id]);
    assert [id][1..] == [];
  }

  // ---- Scopes round trip ----------------------------------------------------------------------

  /** The scopes whose text can be read back. */
  predicate ScopeOk(scope: ActorScope) {
    match scope
    case AnyActor => true
    case Group(id) => id != [] && 0x7C !in id
    case _ =>
      var ids := ActorScopeActorIds(scope).value;
      if |ids| == 1 then ids[0] != [] && 0x7C !in ids[0]
      else 2 <= |ids| <= 250 && forall i :: 0 <= i < |ids| ==> IsCleanId(ids[i])
  }

  /** Not empty, and free of white space, line ends, the bar and the plus. */
  predicate IsCleanId(id: Text) {
    id != [] && 0x7C !in id && 0x2B !in id
    && forall i :: 0 <= i < |id| ==>
      id[i] !in [0x09, 0x0A, 0x0B, 0x0C, 0x0D, 0x20, 0xA0, 0x1680, 0x2000, 0x2001, 0x2002, 0x2003, 0x2004, 0x2005, 0x2006,
                 0x2007, 0x2008, 0x2009, 0x200A, 0x2028, 0x2029, 0x202F, 0x205F, 0x3000, 0xFEFF]
  }

  lemma CleanIdsAre(ids: seq<Text>)
    ensures AllActorIds(ids) <==> forall i :: 0 <= i < |ids| ==> IsCleanId(ids[i])
  {
    forall i | 0 <= i < |ids| ensures IsActorScopeId(ids[i]) <==> IsCleanId(ids[i]) { CleanIdIs(ids[i]); }
    hide IsActorScopeId, IsCleanId;
  }

  lemma CleanIdIs(id: Text)
    ensures IsActorScopeId(id) <==> IsCleanId(id)
  {
  }

  lemma ActorIdPieces(ids: seq<Text>)
    requires AllActorIds(ids)
    ensures forall i :: 0 <= i < |ids| ==> PLUS !in ids[i] && BAR !in ids[i]
  {
  }

  lemma ActorsRoundTrip(ids: seq<Text>)
    requires |CanonicalActorIds(ids)| >= 2
    ensures var canonical := CanonicalActorIds(ids);
      var text := ActorsPrefix() + Join(canonical, PLUS);
      BAR !in text && ReadScope(text) == Some(Actors(canonical))
      <==> |canonical| <= ACTOR_SCOPE_MAX_ACTORS && AllActorIds(canonical)
  {
    var canonical := CanonicalActorIds(ids);
    var t := Join(canonical, PLUS);
    CanonicalIdsStay(ids);
    PrefixUnits();
    ReadActors(t);
    hide CanonicalActorIds, Join, Split, ReadScope, Ascii, IsActorScopeId;
    if AllActorIds(canonical) {
      ActorIdPieces(canonical);
      hide AllActorIds;
      SplitOfJoin(canonical, PLUS);
      if BAR in t { UnitsOfJoin(canonical, PLUS, BAR); }
    }
  }

  lemma SelectionRoundTrips(scope: ActorScope, ids: seq<Text>)
    requires (scope.Actor? || scope.Actors?) && ActorScopeActorIds(scope) == Some(CanonicalActorIds(ids))
    requires ScopeSignature(scope).Some?
    ensures var text := ScopeSignature(scope).value;
      BAR !in text && ReadScope(text) == Some(BuildScope(scope)) <==> ScopeOk(scope)
  {
    PrefixUnits();
    var canonical := CanonicalActorIds(ids);
    CleanIdsAre(canonical);
    hide IsCleanId, AllActorIds;
    if |canonical| == 1 {
      ReadActor(canonical[0]);
      hide ReadScope, Ascii, CanonicalActorIds, Join;
      assert canonical == [canonical[0]];
    } else {
      hide ReadScope, Ascii, CanonicalActorIds, Join;
      ActorsRoundTrip(ids);
    }
  }

  /** A scope's text holds no bar and reads back as the built scope exactly for these scopes. */
  lemma ScopeRoundTrips(scope: ActorScope)
    requires ScopeSignature(scope).Some?
    ensures var text := ScopeSignature(scope).value;
      BAR !in text && ReadScope(text) == Some(BuildScope(scope)) <==> ScopeOk(scope)
  {
    PrefixUnits();
    match scope
    case AnyActor =>
    case Group(id) =>
      ReadGroup(id);
      hide ReadScope, Ascii;
    case Actor(id) =>
      CanonicalSingle(id);
      SelectionRoundTrips(scope, [id]);
    case Actors(ids) =>
      SelectionRoundTrips(scope, ids);
  }

  /** A scope that was read prints as it was read. */
  lemma ScopeReprints(raw: Text)
    requires ReadScope(raw).Some?
    ensures ScopeSignature(ReadScope(raw).value) == Some(raw)
  {
    PrefixUnits();
    hide Ascii, IsActorScopeId;
    if raw == AnyText() {
    } else if StartsWith(raw, ActorPrefix()) {
      var id := raw[|ActorPrefix()|..];
      CanonicalSingle(id);
      assert raw == ActorPrefix() + id;
    } else if StartsWith(raw, ActorsPrefix()) {
      var t := raw[|ActorsPrefix()|..];
      assert raw == ActorsPrefix() + t;
      ActorsReprint(t);
    } else {
      assert raw == GroupPrefix() + raw[|GroupPrefix()|..];
    }
  }

  lemma ActorsReprint(t: Text)
    requires var ids := Split(t, PLUS); |ids| >= 2 && AllActorIds(ids) && Join(CanonicalActorIds(ids), PLUS) == Join(ids, PLUS)
    ensures CanonicalActorIds(Split(t, PLUS)) == Split(t, PLUS)
    ensures Join(Split(t, PLUS), PLUS) == t
  {
    var ids := Split(t, PLUS);
    hide Split, Join, IsActorScopeId, CanonicalActorIds;
    JoinOfSplit(t, PLUS);
    CanonicalIds(ids);
    var canonical := CanonicalActorIds(ids);
    assert ids[0] in canonical;
    forall i | 0 <= i < |canonical| ensures PLUS !in canonical[i] {
      assert canonical[i] in ids;
      ActorIdPieces(ids);
    }
    SplitOfJoin(canonical, PLUS);
  }

  // ---- Metrics round trip ---------------------------------------------------------------------

  /** The number reader agrees with `Number` on the texts the serializer writes. */
  ghost predicate ReadsPresets(number: Text -> Option<int>) {
    forall n :: n in LOOKBACKS ==> number(Decimal(n)) == Some(n)
  }

  /** What the write boundary admits of a metric's filter and scope. */
  predicate Readable(m: Metric) { FilterOk(Filter(m)) && (m.Congress? ==> ScopeOk(m.scope)) }

  lemma DecimalHasNoBar(n: nat)
    ensures BAR !in Decimal(n)
  {
  }

  lemma WordsArePlain(m: Metric)
    ensures AllPlain(Measures(m)) && AllPlain(FilterWords(m)) && Distinct(FilterWords(m)) && AllPlain(Chambers())
  {
    hide InsiderMeasures, CongressMeasures, InsiderRoles, CongressOwners, Chambers;
    MeasuresArePlain();
    RolesArePlain();
    OwnersArePlain();
  }

  /** Only the scope's text can put a bar into a field. */
  lemma PartsAreFree(m: Metric, scopeText: Text)
    requires m.Congress? ==> IsPlain(m.chamber)
    requires BAR !in m.measure && (Filter(m).Some? ==> Within(FilterWords(m), Filter(m).value))
    ensures forall i :: 0 <= i < |Parts(m, scopeText)| && i != 3 ==> BAR !in Parts(m, scopeText)[i]
  {
    KindsArePlain();
    WordsArePlain(m);
    DecimalHasNoBar(m.lookback);
    if Filter(m).Some? { FilterTextIsPlain(FilterWords(m), Filter(m).value); }
    PlainUnits(InsiderKind(), BAR);
    PlainUnits(CongressKind(), BAR);
    if m.Congress? { PlainUnits(m.chamber, BAR); }
    hide FilterText, Decimal, InsiderKind, CongressKind, InsiderRoles, CongressOwners, IsPlain;
  }

  /** Reading the fields of a metric reads its scope and its filter. */
  lemma PartsRead(m: Metric, scopeText: Text, number: Text -> Option<int>)
    requires WellTyped(m) && ReadsPresets(number) && (m.Insider? ==> scopeText == Dash())
    ensures ReadParts(Parts(m, scopeText), number) ==
      var filter := ReadFilter(FilterWords(m), FilterText(FilterWords(m), Filter(m)));
      if filter.None? then None
      else if m.Insider? then Some(Insider(m.measure, m.lookback, filter.value))
      else if ReadScope(scopeText).None? then None
      else Some(Congress(m.measure, m.lookback, ReadScope(scopeText).value, m.chamber, filter.value))
  {
    KindsArePlain();
    hide FilterText, ReadFilter, ReadScope, Decimal, InsiderKind, CongressKind, InsiderRoles, CongressOwners, InsiderMeasures,
      CongressMeasures, Chambers, Ascii, IsPlain;
    assert ReadLookback(Decimal(m.lookback), number) == Some(m.lookback);
  }

  /** A text whose fields are too many is not a signature. */
  lemma TooManyParts(t: Text, number: Text -> Option<int>)
    requires |Split(t, BAR)| > 6
    ensures Parse(t, number) == None
  {
    hide Split, InsiderKind, CongressKind, InsiderRoles, CongressOwners, InsiderMeasures, CongressMeasures, ReadScope, ReadFilter;
  }

  /** Without a bar in the scope's text, the parser sees the fields that were joined. */
  lemma PartsSplit(m: Metric, scopeText: Text)
    requires WellTyped(m) && BAR !in scopeText
    ensures Split(Join(Parts(m, scopeText), BAR), BAR) == Parts(m, scopeText)
  {
    WordsArePlain(m);
    hide Ascii, IsPlain, InsiderRoles, CongressOwners, InsiderMeasures, CongressMeasures, Chambers, InsiderKind, CongressKind,
      FilterText, Decimal, Join, Split;
    PlainUnits(m.measure, BAR);
    PartsAreFree(m, scopeText);
    assert Parts(m, scopeText)[3] == scopeText;
    SplitOfJoin(Parts(m, scopeText), BAR);
  }

  lemma InsiderParses(m: Metric, number: Text -> Option<int>)
    requires m.Insider? && WellTyped(m) && ReadsPresets(number)
    ensures Parse(Signature(m).value, number) == Some(Build(m)) <==> FilterOk(Filter(m))
  {
    WordsArePlain(m);
    DashHasNoBar();
    hide Ascii, AllPlain, InsiderRoles, CongressOwners, InsiderMeasures, CongressMeasures, Chambers, InsiderKind, CongressKind,
      Join, Split, Parts, ReadParts, ReadFilter, FilterText, FilterOk, Select, Distinct;
    FilterRoundTrips(FilterWords(m), Filter(m));
    PartsRead(m, Dash(), number);
    PartsSplit(m, Dash());
  }

  lemma CongressParses(m: Metric, number: Text -> Option<int>)
    requires m.Congress? && WellTyped(m) && ReadsPresets(number) && ScopeSignature(m.scope).Some?
    ensures Parse(Signature(m).value, number) == Some(Build(m)) <==> FilterOk(Filter(m)) && ScopeOk(m.scope)
  {
    WordsArePlain(m);
    hide Ascii, AllPlain, InsiderRoles, CongressOwners, InsiderMeasures, CongressMeasures, Chambers, InsiderKind, CongressKind,
      Join, Split, ReadParts, ReadFilter, FilterText, FilterOk, Select, Distinct, ScopeSignature, ReadScope, ScopeOk, BuildScope;
    var text := ScopeSignature(m.scope).value;
    ScopeRoundTrips(m.scope);
    if BAR in text {
      assert BAR in Parts(m, text)[3];
      SplitCounts(Parts(m, text), BAR);
      TooManyParts(Join(Parts(m, text), BAR), number);
    } else {
      FilterRoundTrips(FilterWords(m), Filter(m));
      PartsRead(m, text, number);
      PartsSplit(m, text);
    }
  }

  lemma DashHasNoBar()
    ensures BAR !in Dash()
  {
  }

  /** Parsing a metric's signature gives the built metric, exactly when its filter and scope can be read back. */
  lemma SignatureParses(m: Metric, number: Text -> Option<int>)
    requires WellTyped(m) && Signature(m).Some? && ReadsPresets(number)
    ensures Parse(Signature(m).value, number) == Some(Build(m)) <==> Readable(m)
  {
    hide WellTyped, Parse, Build, Parts, Join, FilterOk, ScopeOk, ScopeSignature;
    if m.Insider? { InsiderParses(m, number); } else { CongressParses(m, number); }
  }

  lemma SelectsNobody(ids: seq<Text>)
    ensures CanonicalActorIds(ids) == [] <==> ids == []
  {
    CanonicalIds(ids);
    hide CanonicalActorIds;
    var canonical := CanonicalActorIds(ids);
    assert canonical != [] ==> canonical[0] in ids;
    assert ids != [] ==> ids[0] in canonical;
  }

  lemma UnsignedScope(scope: ActorScope)
    ensures ScopeSignature(scope).None? <==> scope == Actors([])
  {
    hide CanonicalActorIds, Ascii, Join;
    if scope.Actors? { SelectsNobody(scope.actorIds); }
  }

  /** A scope that selects nobody is the only thing that has no signature. */
  lemma UnsignedIsEmptySelection(m: Metric)
    ensures Signature(m).None? <==> m.Congress? && m.scope == Actors([])
  {
    hide ScopeSignature, Parts, Join;
    if m.Congress? { UnsignedScope(m.scope); }
  }

  // ---- Building -------------------------------------------------------------------------------

  /** Building twice is building once. */
  lemma BuildIdempotent(m: Metric)
    ensures Build(Build(m)) == Build(m)
  {
    hide InsiderRoles, CongressOwners, Select, CanonicalActorIds;
    if Filter(m).Some? { SelectIdempotent(FilterWords(m), Filter(m).value); }
    if m.Congress? && m.scope.Actors? { CanonicalIdsStay(m.scope.actorIds); }
    if m.Congress? && m.scope.Actor? { CanonicalSingle(m.scope.actorId); }
  }

  /** A built scope prints as the scope it was built from. */
  lemma BuildKeepsScope(scope: ActorScope)
    ensures ActorScopeActorIds(BuildScope(scope)) == ActorScopeActorIds(scope)
    ensures ScopeSignature(BuildScope(scope)) == ScopeSignature(scope)
  {
    hide CanonicalActorIds, Join, Ascii;
    if scope.Actors? { CanonicalIdsStay(scope.actorIds); }
    if scope.Actor? { CanonicalSingle(scope.actorId); }
  }

  lemma {:induction false} JoinEndsWith(parts: seq<Text>, last: Text, separator: CodeUnit)
    requires parts != []
    ensures Join(parts + [last], separator) == Join(parts, separator) + [separator] + last
  {
    if |parts| == 1 {
      assert (parts + [last])[1..] == [last];
    } else {
      assert (parts + [last])[1..] == parts[1..] + [last];
      JoinEndsWith(parts[1..], last, separator);
    }
  }

  lemma LastPartShows(parts: seq<Text>, x: Text, y: Text, separator: CodeUnit)
    requires parts != []
    ensures Join(parts + [x], separator) == Join(parts + [y], separator) <==> x == y
  {
    JoinEndsWith(parts, x, separator);
    JoinEndsWith(parts, y, separator);
    var head := Join(parts, separator) + [separator];
    assert x == (head + x)[|head|..] && y == (head + y)[|head|..];
  }

  /** Two lists from a plain vocabulary print alike exactly when they sort alike. */
  lemma FilterTextShows(words: seq<Text>, list: seq<Text>, other: seq<Text>)
    requires AllPlain(words) && Within(words, list) && Within(words, other)
    ensures FilterText(words, Some(list)) == FilterText(words, Some(other)) <==> SortBy(words, list) == SortBy(words, other)
  {
    hide IsPlain;
    FilterReads(words, Some(list));
    FilterReads(words, Some(other));
    SortByElements(words, list);
    SortByElements(words, other);
  }

  /** Building leaves the signature alone exactly when the filter lists nothing twice. */
  lemma BuildKeepsSignature(m: Metric)
    requires WellTyped(m) && Signature(m).Some?
    ensures Signature(Build(m)) == Signature(m) <==> Filter(m).None? || Distinct(Filter(m).value)
  {
    WordsArePlain(m);
    hide Ascii, InsiderRoles, CongressOwners, InsiderMeasures, CongressMeasures, Chambers, InsiderKind, CongressKind,
      ScopeSignature, Join, FilterText, Distinct, Decimal, SortBy, Select, IsPlain;
    if m.Congress? { BuildKeepsScope(m.scope); }
    var scopeText := ScopeText(m, ScopeSignature).value;
    var parts, built := Parts(m, scopeText), Parts(Build(m), scopeText);
    var n := |parts| - 1;
    assert parts == parts[..n] + [parts[n]] && built == parts[..n] + [built[n]];
    LastPartShows(parts[..n], parts[n], built[n], BAR);
    if Filter(m).Some? {
      var words, list := FilterWords(m), Filter(m).value;
      assert Within(words, Select(words, list));
      FilterTextShows(words, list, Select(words, list));
      SortIsSelect(words, list);
      SelectSorted(words, list);
    }
  }

  lemma SelectSorted(words: seq<Text>, list: seq<Text>)
    requires Distinct(words)
    ensures SortBy(words, Select(words, list)) == Select(words, list)
  {
    SelectKeepsApart(words, list);
    SortIsSelect(words, Select(words, list));
    SelectIdempotent(words, list);
  }

  lemma PlainHasNoSmallLetter(word: Text)
    requires IsPlain(word)
    ensures !HasSmallLetter(word)
  {
  }

  // ---- What the parser accepts ----------------------------------------------------------------

  /** The fields a parsed text is made of. */
  lemma ParsedParts(t: Text, number: Text -> Option<int>)
    requires Parse(t, number).Some?
    ensures var m, parts := Parse(t, number).value, Split(t, BAR);
      && |parts| == (if m.Insider? then 5 else 6)
      && parts[0] == (if m.Insider? then InsiderKind() else CongressKind())
      && parts[1] == m.measure && FindsMeasure(Measures(m), m.measure) && m.lookback in LOOKBACKS
      && ReadFilter(FilterWords(m), parts[|parts| - 1]) == Some(Filter(m))
      && (if m.Insider? then parts[3] == Dash()
          else ReadScope(parts[3]) == Some(m.scope) && parts[4] == m.chamber && m.chamber in Chambers())
  {
    hide Ascii, Split, InsiderRoles, CongressOwners, InsiderMeasures, CongressMeasures, Chambers, InsiderKind, CongressKind,
      ReadScope, ReadFilter, FindsMeasure;
  }

  /** Once kind, measure, scope and chamber agree, two lists of fields differ in the lookback or the filter only. */
  lemma SameParts(m: Metric, parts: seq<Text>)
    requires |parts| == (if m.Insider? then 5 else 6)
    requires parts[0] == (if m.Insider? then InsiderKind() else CongressKind()) && parts[1] == m.measure
    requires m.Congress? ==> parts[4] == m.chamber
    ensures Parts(m, parts[3]) == parts <==>
      parts[2] == Decimal(m.lookback) && parts[|parts| - 1] == FilterText(FilterWords(m), Filter(m))
  {
    hide InsiderKind, CongressKind, InsiderRoles, CongressOwners, Decimal, FilterText;
    var printed := Parts(m, parts[3]);
    assert printed == parts <==> printed[2] == parts[2] && printed[|parts| - 1] == parts[|parts| - 1];
  }

  /** Two lists of bar-free fields join alike only if they are the same. */
  lemma JoinDetermines(a: seq<Text>, b: seq<Text>, separator: CodeUnit)
    requires a != [] && b != []
    requires forall i :: 0 <= i < |a| ==> separator !in a[i]
    requires forall i :: 0 <= i < |b| ==> separator !in b[i]
    ensures Join(a, separator) == Join(b, separator) <==> a == b
  {
    SplitOfJoin(a, separator);
    SplitOfJoin(b, separator);
  }

  /** A parsed text prints as itself exactly when its lookback is written plainly and its filter in order. */
  lemma SignatureReprints(t: Text, number: Text -> Option<int>)
    requires Parse(t, number).Some?
    ensures var m := Parse(t, number).value;
      Signature(m) == Some(t) <==>
      && Split(t, BAR)[2] == Decimal(m.lookback)
      && (Filter(m).None? || Sorted(Filter(m).value, ByIndex(FilterWords(m))))
  {
    hide Ascii, Split, InsiderRoles, CongressOwners, InsiderMeasures, CongressMeasures, Chambers, InsiderKind, CongressKind,
      ReadScope, ReadFilter, FindsMeasure, Parse, ScopeSignature, FilterText, Join, Decimal, Sorted, IsPlain, Distinct;
    var m, parts := Parse(t, number).value, Split(t, BAR);
    ParsedParts(t, number);
    WordsArePlain(m);
    FilterReprints(FilterWords(m), parts[|parts| - 1]);
    if m.Congress? { ScopeReprints(parts[3]); }
    var printed := Parts(m, parts[3]);
    assert Signature(m) == Some(Join(printed, BAR));
    SameParts(m, parts);
    PiecesAreFree(t, BAR);
    assert BAR !in parts[1];
    PartsAreFree(m, parts[3]);
    assert printed[3] == parts[3];
    JoinOfSplit(t, BAR);
    hide Parts;
    JoinDetermines(printed, parts, BAR);
  }

  /** What is parsed is of the declared types, except that a measure may be a name every object inherits. */
  lemma ParsedIsWellTyped(t: Text, number: Text -> Option<int>)
    requires Parse(t, number).Some?
    ensures WellTyped(Parse(t, number).value) <==> Parse(t, number).value.measure !in InheritedNames()
  {
    var m := Parse(t, number).value;
    ParsedParts(t, number);
    WordsArePlain(m);
    InheritedNamesAreNotPlain();
    var parts := Split(t, BAR);
    FilterReprints(FilterWords(m), parts[|parts| - 1]);
    hide Ascii, Split, InsiderRoles, CongressOwners, InsiderMeasures, CongressMeasures, Chambers, InheritedNames, Parse;
    if m.measure in Measures(m) { PlainHasNoSmallLetter(m.measure); }
  }

  /** Such a text does parse: for each inherited name, one that names no measure is accepted. */
  lemma InheritedNamesParse(name: Text, number: Text -> Option<int>)
    requires name in InheritedNames() && ReadsPresets(number)
    ensures Parse(Join([InsiderKind(), name, Decimal(5), Dash(), Dash()], BAR), number) == Some(Insider(name, 5, None))
  {
    InheritedNamesAreNotPlain();
    KindsArePlain();
    DecimalHasNoBar(5);
    PlainUnits(InsiderKind(), BAR);
    assert BAR !in Dash();
    hide Ascii, InheritedNames, InsiderRoles, InsiderMeasures, Decimal, Join, Split, InsiderKind, IsPlain, HasSmallLetter;
    var parts := [InsiderKind(), name, Decimal(5), Dash(), Dash()];
    SplitOfJoin(parts, BAR);
    assert ReadLookback(Decimal(5), number) == Some(5);
  }
}
