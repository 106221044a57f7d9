/** The fingerprints of `packages/contracts/src/alternative-data.ts`: signatures with long selections digested. */
module Fingerprints {
  import opened Wrappers
  import opened JsText
  import opened Collections
  import opened DecimalText
  import opened Delimited
  import opened Vocabulary
  import opened Signatures
  import opened SignatureRoundTrip
  import Sha256

  function Colon(): Text { Ascii(":") }

  /** A selection of two or more actors contributes its size and a digest of its ids. */
  function FingerprintScope(scope: ActorScope): Option<Text> {
    var ids := ActorScopeActorIds(scope);
    if ids.Some? && |ids.value| > 1 then
      Some(ActorsPrefix() + Decimal(|ids.value|) + Colon() + Sha256.HexDigest(Join(ids.value, PLUS)))
    else ScopeSignature(scope)
  }

  /** `alternativeDataMetricFingerprint`. */
  function Fingerprint(m: Metric): Option<Text> { SignatureBy(m, FingerprintScope) }

  method MetricFingerprint(m: Metric) returns (text: Option<Text>)
    ensures text == Fingerprint(m)
  {
    hide FingerprintScope;
    text := MetricSignature(m, FingerprintScope);
  }

  /** The ids a scope's digest would be taken over. */
  predicate IsLongSelection(scope: ActorScope) {
    ActorScopeActorIds(scope).Some? && |ActorScopeActorIds(scope).value| > 1
  }

  /** Two different selections of the same size whose ids have the same digest. */
  predicate ScopesCollide(a: ActorScope, b: ActorScope) {
    && IsLongSelection(a) && IsLongSelection(b)
    && var s, t := ActorScopeActorIds(a).value, ActorScopeActorIds(b).value;
    && s != t && |s| == |t|
    && Sha256.HexDigest(Join(s, PLUS)) == Sha256.HexDigest(Join(t, PLUS))
  }

  /** A single actor is one selection whichever shape holds it. */
  lemma ActorIsASelection(measure: Text, lookback: nat, id: Text, chamber: Text, owners: Option<seq<Text>>)
    ensures var legacy, current := Congress(measure, lookback, Actor(id), chamber, owners),
        Congress(measure, lookback, Actors([id]), chamber, owners);
      && Build(legacy) == Build(current)
      && Signature(legacy) == Signature(current)
      && Fingerprint(legacy) == Fingerprint(current)
  {
    CanonicalSingle(id);
    assert FingerprintScope(Actor(id)) == ScopeSignature(Actor(id));
    assert FingerprintScope(Actors([id])) == ScopeSignature(Actors([id]));
    hide CongressOwners, Parts, Join, ScopeSignature, FingerprintScope;
    BuildKeepsScope(Actor(id));
    BuildKeepsScope(Actors([id]));
  }

  /** Anything but a selection of two or more actors has its signature for fingerprint. */
  lemma ShortFingerprintIsSignature(m: Metric)
    requires m.Insider? || !IsLongSelection(m.scope)
    ensures Fingerprint(m) == Signature(m)
  {
    hide ScopeSignature, Parts, Join;
  }

  // ---- Scope texts ----------------------------------------------------------------------------

  lemma DigestSuffix(m: nat, n: nat, x: Text, y: Text)
    requires |x| == |y|
    ensures ActorsPrefix() + Decimal(m) + Colon() + x == ActorsPrefix() + Decimal(n) + Colon() + y <==> m == n && x == y
  {
    hide Ascii, Decimal;
    var s, t := ActorsPrefix() + Decimal(m) + Colon(), ActorsPrefix() + Decimal(n) + Colon();
    if s + x == t + y {
      assert |s| == |t|;
      assert s == (s + x)[..|s|] && t == (t + y)[..|t|];
      assert x == (s + x)[|s|..] && y == (t + y)[|t|..];
      assert Decimal(m) == s[7..|s| - 1] && Decimal(n) == t[7..|t| - 1];
      NumberOfDecimal(m);
      NumberOfDecimal(n);
    }
  }

  lemma LongTextsShow(a: ActorScope, b: ActorScope)
    requires IsLongSelection(a) && IsLongSelection(b) && ScopeOk(a) && ScopeOk(b)
    ensures FingerprintScope(a) == FingerprintScope(b) <==> ScopeSignature(a) == ScopeSignature(b) || ScopesCollide(a, b)
    ensures ScopeSignature(a) == ScopeSignature(b) <==> ActorScopeActorIds(a) == ActorScopeActorIds(b)
  {
    hide CanonicalActorIds, Join, Ascii, Sha256.HexDigest, AllActorIds, Decimal, IsCleanId;
    var s, t := ActorScopeActorIds(a).value, ActorScopeActorIds(b).value;
    CleanIdsAre(s);
    CleanIdsAre(t);
    ActorIdPieces(s);
    ActorIdPieces(t);
    JoinDetermines(s, t, PLUS);
    var x, y := Join(s, PLUS), Join(t, PLUS);
    assert x == (ActorsPrefix() + x)[|ActorsPrefix()|..] && y == (ActorsPrefix() + y)[|ActorsPrefix()|..];
    Sha256.HexDigestDetermines(x, y);
    Sha256.HexDigestDetermines(y, x);
    DigestSuffix(|s|, |t|, Sha256.HexDigest(x), Sha256.HexDigest(y));
  }

  lemma SelectionTextStarts(scope: ActorScope)
    requires (scope.Actor? || scope.Actors?) && ScopeSignature(scope).Some?
    ensures FingerprintScope(scope).Some?
    ensures StartsWith(ScopeSignature(scope).value, ActorsPrefix()) <==> IsLongSelection(scope)
    ensures StartsWith(FingerprintScope(scope).value, ActorsPrefix()) <==> IsLongSelection(scope)
  {
    PrefixUnits();
    hide Ascii, CanonicalActorIds, Join, Sha256.HexDigest, Decimal, StartsWith;
    var ids := ActorScopeActorIds(scope).value;
    if |ids| == 1 {
      PrefixReads(ActorPrefix(), ids[0]);
      StartsDiffer(ActorPrefix() + ids[0], ActorsPrefix(), 5);
    } else {
      var digest := Sha256.HexDigest(Join(ids, PLUS));
      PrefixReads(ActorsPrefix(), Join(ids, PLUS));
      PrefixReads(ActorsPrefix(), Decimal(|ids|) + Colon() + digest);
      assert ActorsPrefix() + Decimal(|ids|) + Colon() + digest == ActorsPrefix() + (Decimal(|ids|) + Colon() + digest);
    }
  }

  /** Texts that start with `actors:` belong to selections of two or more. */
  lemma LongTextStarts(scope: ActorScope)
    requires ScopeSignature(scope).Some?
    ensures FingerprintScope(scope).Some?
    ensures StartsWith(ScopeSignature(scope).value, ActorsPrefix()) <==> IsLongSelection(scope)
    ensures StartsWith(FingerprintScope(scope).value, ActorsPrefix()) <==> IsLongSelection(scope)
  {
    PrefixUnits();
    hide Ascii, StartsWith;
    match scope
    case AnyActor => StartsDiffer(AnyText(), ActorsPrefix(), 1);
    case Group(id) =>
      PrefixReads(GroupPrefix(), id);
      StartsDiffer(GroupPrefix() + id, ActorsPrefix(), 0);
    case Actor(_) => SelectionTextStarts(scope);
    case Actors(_) => SelectionTextStarts(scope);
  }

  /** No two different shapes share a text; two selections share one only if their digests collide. */
  lemma ScopeTextsShow(a: ActorScope, b: ActorScope)
    requires ScopeOk(a) && ScopeOk(b) && ScopeSignature(a).Some? && ScopeSignature(b).Some?
    ensures FingerprintScope(a) == FingerprintScope(b) <==> ScopeSignature(a) == ScopeSignature(b) || ScopesCollide(a, b)
  {
    LongTextStarts(a);
    LongTextStarts(b);
    hide StartsWith, ScopeSignature, ScopeOk;
    if IsLongSelection(a) && IsLongSelection(b) { LongTextsShow(a, b); }
  }

  // ---- Fingerprints ---------------------------------------------------------------------------

  /** A fingerprint's scope text holds no bar. */
  lemma FingerprintTextIsFree(scope: ActorScope)
    requires ScopeOk(scope) && ScopeSignature(scope).Some?
    ensures FingerprintScope(scope).Some? && BAR !in FingerprintScope(scope).value
    ensures BAR !in ScopeSignature(scope).value
  {
    PrefixUnits();
    ScopeRoundTrips(scope);
    hide ScopeSignature, ScopeOk, ReadScope, Ascii, CanonicalActorIds, Join, Sha256.HexDigest, Decimal;
    if IsLongSelection(scope) {
      var ids := ActorScopeActorIds(scope).value;
      var digest := Sha256.HexDigest(Join(ids, PLUS));
      Sha256.HexDigestDetermines(Join(ids, PLUS), Join(ids, PLUS));
      assert BAR !in digest;
      DecimalHasNoBar(|ids|);
      ColonIs();
      FourPieces(ActorsPrefix(), Decimal(|ids|), Colon(), digest, BAR);
    }
  }

  lemma ColonIs()
    ensures Colon() == [58]
  {
  }

  lemma FourPieces(a: Text, b: Text, c: Text, d: Text, u: CodeUnit)
    requires u !in a && u !in b && u !in c && u !in d
    ensures u !in a + b + c + d
  {
  }

  lemma PartsShow(m: Metric, n: Metric, x: Text, y: Text)
    ensures Parts(m, x) == Parts(n, y) <==> Parts(m, []) == Parts(n, []) && x == y
  {
    hide InsiderKind, CongressKind, InsiderRoles, CongressOwners, Decimal, FilterText;
    var p, q := Parts(m, x), Parts(n, y);
    assert p == Parts(m, [])[3 := x] && q == Parts(n, [])[3 := y];
    assert Parts(m, []) == p[3 := []] && Parts(n, []) == q[3 := []];
    assert p[3] == x && q[3] == y;
  }

  /** The two metrics agree in every field but their selections, whose digests collide. */
  predicate Collide(m: Metric, n: Metric) {
    && m.Congress? && n.Congress? && ScopesCollide(m.scope, n.scope)
    && m.measure == n.measure && m.lookback == n.lookback && m.chamber == n.chamber
    && BuildFilter(CongressOwners(), m.owners) == BuildFilter(CongressOwners(), n.owners)
  }

  lemma KindsShow(m: Metric, n: Metric)
    requires Parts(m, []) == Parts(n, [])
    ensures m.Insider? <==> n.Insider?
  {
    KindsArePlain();
    hide InsiderKind, CongressKind, InsiderRoles, CongressOwners, Decimal, FilterText;
    assert Parts(m, [])[0] == Parts(n, [])[0];
  }

  /** Metrics with bar-free scope texts print alike exactly when all their fields agree. */
  lemma PrintedAlike(m: Metric, n: Metric, x: Text, y: Text)
    requires WellTyped(m) && WellTyped(n) && BAR !in x && BAR !in y
    ensures Join(Parts(m, x), BAR) == Join(Parts(n, y), BAR) <==> Parts(m, []) == Parts(n, []) && x == y
  {
    WordsArePlain(m);
    WordsArePlain(n);
    hide IsPlain, InsiderRoles, CongressOwners, InsiderMeasures, CongressMeasures, Chambers, FilterText, Join, InsiderKind, CongressKind, Decimal;
    PlainUnits(m.measure, BAR);
    PlainUnits(n.measure, BAR);
    PartsAreFree(m, x);
    PartsAreFree(n, y);
    assert Parts(m, x)[3] == x && Parts(n, y)[3] == y;
    PartsShow(m, n, x, y);
    hide Parts;
    JoinDetermines(Parts(m, x), Parts(n, y), BAR);
  }

  lemma FiltersShow(words: seq<Text>, a: Option<seq<Text>>, b: Option<seq<Text>>)
    requires AllPlain(words) && Distinct(words) && FilterOk(a) && FilterOk(b)
    requires (a.Some? ==> Within(words, a.value)) && (b.Some? ==> Within(words, b.value))
    ensures FilterText(words, a) == FilterText(words, b) <==> BuildFilter(words, a) == BuildFilter(words, b)
  {
    hide IsPlain;
    if a.Some? {
      FilterTextIsPlain(words, a.value);
      SortIsSelect(words, a.value);
    }
    if b.Some? {
      FilterTextIsPlain(words, b.value);
      SortIsSelect(words, b.value);
    }
    if a.Some? && b.Some? { FilterTextShows(words, a.value, b.value); }
  }

  /** The fields around the scope agree exactly when the built fields do. */
  lemma OtherFieldsShow(m: Metric, n: Metric)
    requires WellTyped(m) && WellTyped(n) && FilterOk(Filter(m)) && FilterOk(Filter(n))
    ensures Parts(m, []) == Parts(n, []) <==>
      && (m.Insider? <==> n.Insider?) && m.measure == n.measure && m.lookback == n.lookback
      && BuildFilter(FilterWords(m), Filter(m)) == BuildFilter(FilterWords(n), Filter(n))
      && (m.Congress? ==> m.chamber == n.chamber)
  {
    WordsArePlain(m);
    hide InsiderKind, CongressKind, InsiderRoles, CongressOwners, InsiderMeasures, CongressMeasures, Chambers, Decimal,
      FilterText, IsPlain, Select, FilterOk;
    if Parts(m, []) == Parts(n, []) { KindsShow(m, n); }
    NumberOfDecimal(m.lookback);
    NumberOfDecimal(n.lookback);
    if m.Insider? <==> n.Insider? {
      FiltersShow(FilterWords(m), Filter(m), Filter(n));
      FieldsShow(m, n);
    }
  }

  lemma FieldsShow(m: Metric, n: Metric)
    requires m.Insider? <==> n.Insider?
    ensures Parts(m, []) == Parts(n, []) <==>
      && m.measure == n.measure && Decimal(m.lookback) == Decimal(n.lookback)
      && FilterText(FilterWords(m), Filter(m)) == FilterText(FilterWords(n), Filter(n))
      && (m.Congress? ==> m.chamber == n.chamber)
  {
    hide InsiderKind, CongressKind, InsiderRoles, CongressOwners, Decimal, FilterText;
    var p, q := Parts(m, []), Parts(n, []);
    assert p == q <==> forall i :: 0 <= i < |p| ==> p[i] == q[i];
  }

  /** Two metrics have equal signatures exactly when they build to the same metric. */
  lemma SignaturesAgree(m: Metric, n: Metric)
    requires WellTyped(m) && WellTyped(n) && Readable(m) && Readable(n) && Signature(m).Some? && Signature(n).Some?
    ensures Signature(m) == Signature(n) <==> Build(m) == Build(n)
  {
    hide WellTyped, Build, Signature, Parse;
    var number: Text -> Option<int> := (t: Text) => if AllDigits(t) then Some(Number(t)) else None;
    forall k | k in LOOKBACKS ensures number(Decimal(k)) == Some(k) { NumberOfDecimal(k); }
    SignatureParses(m, number);
    SignatureParses(n, number);
    BuildKeepsSignature(m);
    BuildKeepsSignature(n);
  }

  /** Two metrics have equal fingerprints exactly when their signatures are equal or their digests collide. */
  lemma FingerprintsAgree(m: Metric, n: Metric)
    requires WellTyped(m) && WellTyped(n) && Readable(m) && Readable(n) && Signature(m).Some? && Signature(n).Some?
    ensures Fingerprint(m) == Fingerprint(n) <==> Signature(m) == Signature(n) || Collide(m, n)
  {
    hide InsiderRoles, CongressOwners, InsiderMeasures, CongressMeasures, Chambers, Join, Parts, ScopesCollide, Select,
      ScopeSignature, FingerprintScope, ScopeOk, WellTyped, Ascii;
    var x, y := ScopeText(m, ScopeSignature).value, ScopeText(n, ScopeSignature).value;
    if m.Congress? { FingerprintTextIsFree(m.scope); }
    if n.Congress? { FingerprintTextIsFree(n.scope); }
    var f, g := ScopeText(m, FingerprintScope).value, ScopeText(n, FingerprintScope).value;
    DashHasNoBar();
    PrintedAlike(m, n, x, y);
    PrintedAlike(m, n, f, g);
    OtherFieldsShow(m, n);
    if m.Congress? && n.Congress? { ScopeTextsShow(m.scope, n.scope); }
  }
}
