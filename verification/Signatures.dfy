/** The metric signatures of `packages/contracts/src/alternative-data.ts`: printer, parser and canonical form. */
module Signatures {
  import opened Wrappers
  import opened JsText
  import opened Sorting
  import opened TextSorting
  import opened DecimalText
  import opened Delimited
  import opened Vocabulary

  // ---- Vocabularies ---------------------------------------------------------------------------

  function InsiderKind(): Text { Ascii("INSIDER_ACTIVITY") }

  function CongressKind(): Text { Ascii("CONGRESS_ACTIVITY") }

  function InsiderMeasures(): seq<Text> {
    [Ascii("BUYERS"), Ascii("SELLERS"), Ascii("PURCHASE_VALUE"), Ascii("SALE_VALUE")]
  }

  function CongressMeasures(): seq<Text> {
    [Ascii("PURCHASES"), Ascii("SALES"), Ascii("BUYERS"), Ascii("SELLERS"), Ascii("MINIMUM_PURCHASE_VALUE")]
  }

  function InsiderRoles(): seq<Text> {
    [Ascii("CEO"), Ascii("CFO"), Ascii("COO"), Ascii("PRESIDENT"), Ascii("CHAIRMAN"), Ascii("DIRECTOR"),
     Ascii("OFFICER"), Ascii("TEN_PERCENT_OWNER"), Ascii("OTHER")]
  }

  function CongressOwners(): seq<Text> {
    [Ascii("SELF"), Ascii("SPOUSE"), Ascii("JOINT"), Ascii("CHILD"), Ascii("DEPENDENT"), Ascii("OTHER"),
     Ascii("UNSPECIFIED")]
  }

  function Chambers(): seq<Text> { [Ascii("ANY"), Ascii("HOUSE"), Ascii("SENATE")] }

  const LOOKBACKS: seq<nat> := [5, 10, 20, 30, 60, 90, 120, 180, 250]

  const ACTOR_SCOPE_MAX_ACTORS := 250

  /** What every object literal inherits, so what a lookup `table[measure]` finds beside its own entries. */
  function InheritedNames(): seq<Text> { InheritedMethods() + InheritedAccessors() }

  function InheritedMethods(): seq<Text> {
    [Ascii("constructor"), Ascii("toString"), Ascii("toLocaleString"), Ascii("valueOf"), Ascii("hasOwnProperty"),
     Ascii("isPrototypeOf"), Ascii("propertyIsEnumerable")]
  }

  function InheritedAccessors(): seq<Text> {
    [Ascii("__proto__"), Ascii("__defineGetter__"), Ascii("__defineSetter__"), Ascii("__lookupGetter__"),
     Ascii("__lookupSetter__")]
  }

  const BAR: CodeUnit := 0x7C
  const PLUS: CodeUnit := 0x2B

  // ---- Metrics --------------------------------------------------------------------------------

  datatype ActorScope =
    | AnyActor
    | Actors(actorIds: seq<Text>)
    | Actor(actorId: Text)
    | Group(groupId: Text)

  datatype Metric =
    | Insider(measure: Text, lookback: nat, roles: Option<seq<Text>>)
    | Congress(measure: Text, lookback: nat, scope: ActorScope, chamber: Text, owners: Option<seq<Text>>)

  function Measures(m: Metric): seq<Text> { if m.Insider? then InsiderMeasures() else CongressMeasures() }

  /** The vocabulary of a metric's optional filter, and the filter. */
  function FilterWords(m: Metric): seq<Text> { if m.Insider? then InsiderRoles() else CongressOwners() }

  function Filter(m: Metric): Option<seq<Text>> { if m.Insider? then m.roles else m.owners }

  /** What the declared types admit. */
  predicate WellTyped(m: Metric) {
    && m.measure in Measures(m)
    && m.lookback in LOOKBACKS
    && (m.Congress? ==> m.chamber in Chambers())
    && (Filter(m).Some? ==> Within(FilterWords(m), Filter(m).value))
  }

  // ---- Actor ids ------------------------------------------------------------------------------

  /** `[...new Set(ids)]`: first occurrences, in order. */
  function Deduplicated(ids: seq<Text>): (r: seq<Text>)
    ensures forall id :: id in r <==> id in ids
  {
    if ids == [] then []
    else
      assert ids == ids[..|ids| - 1] + [ids[|ids| - 1]];
      var r := Deduplicated(ids[..|ids| - 1]);
      if ids[|ids| - 1] in r then r else r + [ids[|ids| - 1]]
  }

  function CanonicalActorIds(ids: seq<Text>): seq<Text> { Sort(Deduplicated(ids), TextOrder()) }

  /** The ids a scope selects by; none when it selects otherwise. */
  function ActorScopeActorIds(scope: ActorScope): Option<seq<Text>> {
    match scope
    case Actors(ids) => Some(CanonicalActorIds(ids))
    case Actor(id) => Some([id])
    case AnyActor => None
    case Group(_) => None
  }

  /** JavaScript's `\s`. */
  predicate IsSpace(u: CodeUnit) {
    || 0x09 <= u <= 0x0D || u == 0x20 || u == 0xA0 || u == 0x1680 || 0x2000 <= u <= 0x200A
    || u == 0x2028 || u == 0x2029 || u == 0x202F || u == 0x205F || u == 0x3000 || u == 0xFEFF
  }

  predicate IsActorScopeId(id: Text) {
    id != [] && forall i :: 0 <= i < |id| ==> !IsSpace(id[i]) && id[i] != BAR && id[i] != PLUS
  }

  // ---- Printing -------------------------------------------------------------------------------

  function AnyText(): Text { Ascii("any") }
  function ActorPrefix(): Text { Ascii("actor:") }
  function ActorsPrefix(): Text { Ascii("actors:") }
  function GroupPrefix(): Text { Ascii("group:") }
  function Dash(): Text { Ascii("-") }

  /** `scopeSignature`; a scope that selects nobody makes it throw. */
  function ScopeSignature(scope: ActorScope): Option<Text> {
    match scope
    case AnyActor => Some(AnyText())
    case Group(id) => Some(GroupPrefix() + id)
    case _ =>
      var ids := ActorScopeActorIds(scope).value;
      if ids == [] then None
      else if |ids| == 1 then Some(ActorPrefix() + ids[0])
      else Some(ActorsPrefix() + Join(ids, PLUS))
  }

  function FilterText(words: seq<Text>, list: Option<seq<Text>>): Text {
    if list.None? then Dash() else Join(SortBy(words, list.value), PLUS)
  }

  /** The fields of a signature, around a scope's text. */
  function Parts(m: Metric, scopeText: Text): seq<Text> {
    match m
    case Insider(measure, lookback, roles) =>
      [InsiderKind(), measure, Decimal(lookback), scopeText, FilterText(InsiderRoles(), roles)]
    case Congress(measure, lookback, _, chamber, owners) =>
      [CongressKind(), measure, Decimal(lookback), scopeText, chamber, FilterText(CongressOwners(), owners)]
  }

  function ScopeText(m: Metric, serializeScope: ActorScope -> Option<Text>): Option<Text> {
    if m.Insider? then Some(Dash()) else serializeScope(m.scope)
  }

  function SignatureBy(m: Metric, serializeScope: ActorScope -> Option<Text>): Option<Text> {
    var scopeText := ScopeText(m, serializeScope);
    if scopeText.None? then None else Some(Join(Parts(m, scopeText.value), BAR))
  }

  /** `alternativeDataMetricSignature`. */
  function Signature(m: Metric): Option<Text> { SignatureBy(m, ScopeSignature) }

  /** `metricSignature`: the parts are pushed one by one, and nothing is returned when the scope throws. */
  method MetricSignature(m: Metric, serializeScope: ActorScope -> Option<Text>) returns (text: Option<Text>)
    ensures text == SignatureBy(m, serializeScope)
  {
    hide Ascii, Join, Decimal;
    var parts := [if m.Insider? then InsiderKind() else CongressKind(), m.measure, Decimal(m.lookback)];
    if m.Insider? {
      parts := parts + [Dash()];
    } else {
      var scopeText := serializeScope(m.scope);
      if scopeText.None? {
        return None;
      }
      parts := parts + [scopeText.value];
    }
    if m.Congress? {
      parts := parts + [m.chamber];
      parts := parts + [if m.owners.None? then Dash() else Join(SortBy(CongressOwners(), m.owners.value), PLUS)];
    }
    if m.Insider? {
      parts := parts + [if m.roles.None? then Dash() else Join(SortBy(InsiderRoles(), m.roles.value), PLUS)];
    }
    assert parts == Parts(m, ScopeText(m, serializeScope).value);
    return Some(Join(parts, BAR));
  }

  // ---- Building -------------------------------------------------------------------------------

  function BuildScope(scope: ActorScope): ActorScope {
    match scope
    case AnyActor => AnyActor
    case Group(id) => Group(id)
    case _ => Actors(ActorScopeActorIds(scope).value)
  }

  function BuildFilter(words: seq<Text>, list: Option<seq<Text>>): Option<seq<Text>> {
    if list.None? then None else Some(Select(words, list.value))
  }

  /** `buildAlternativeDataMetric`. */
  function Build(m: Metric): Metric {
    match m
    case Insider(measure, lookback, roles) => Insider(measure, lookback, BuildFilter(InsiderRoles(), roles))
    case Congress(measure, lookback, scope, chamber, owners) =>
      Congress(measure, lookback, BuildScope(scope), chamber, BuildFilter(CongressOwners(), owners))
  }

  // ---- Parsing --------------------------------------------------------------------------------

  predicate StartsWith(t: Text, prefix: Text) { |prefix| <= |t| && t[..|prefix|] == prefix }

  /** `findAlternativeDataMeasure(kind, measure)` is not undefined. */
  predicate FindsMeasure(table: seq<Text>, measure: Text) { measure in table || measure in InheritedNames() }

  /** `filterList`; the outer absence is "INVALID". */
  function ReadFilter(words: seq<Text>, raw: Text): Option<Option<seq<Text>>> {
    if raw == Dash() then Some(None)
    else
      var values := Split(raw, PLUS);
      if Within(words, values) then Some(Some(values)) else None
  }

  function ReadScope(raw: Text): Option<ActorScope> {
    if raw == AnyText() then Some(AnyActor)
    else if StartsWith(raw, ActorPrefix()) then
      var id := raw[|ActorPrefix()|..];
      if id == [] then None else Some(Actors([id]))
    else if StartsWith(raw, ActorsPrefix()) then
      var ids := Split(raw[|ActorsPrefix()|..], PLUS);
      if |ids| < 2 || |ids| > ACTOR_SCOPE_MAX_ACTORS || (exists i :: 0 <= i < |ids| && !IsActorScopeId(ids[i]))
         || Join(CanonicalActorIds(ids), PLUS) != Join(ids, PLUS)
      then None
      else Some(Actors(ids))
    else if StartsWith(raw, GroupPrefix()) then
      var id := raw[|GroupPrefix()|..];
      if id == [] then None else Some(Group(id))
    else None
  }

  /** `Number(raw)`, when that is one of the presets. */
  function ReadLookback(raw: Text, number: Text -> Option<int>): Option<nat> {
    var n := number(raw);
    if n.Some? && n.value in LOOKBACKS then Some(n.value) else None
  }

  function ReadInsider(parts: seq<Text>, lookback: nat): Option<Metric>
    requires |parts| >= 3
  {
    if |parts| != 5 || parts[3] != Dash() then None
    else
      var roles := ReadFilter(InsiderRoles(), parts[4]);
      if roles.None? then None else Some(Insider(parts[1], lookback, roles.value))
  }

  function ReadCongress(parts: seq<Text>, lookback: nat): Option<Metric>
    requires |parts| >= 3
  {
    if |parts| != 6 then None
    else
      var scope, owners := ReadScope(parts[3]), ReadFilter(CongressOwners(), parts[5]);
      if scope.None? || parts[4] !in Chambers() || owners.None? then None
      else Some(Congress(parts[1], lookback, scope.value, parts[4], owners.value))
  }

  function ReadParts(parts: seq<Text>, number: Text -> Option<int>): Option<Metric> {
    if |parts| < 3 then None
    else
      var lookback := ReadLookback(parts[2], number);
      if lookback.None? then None
      else if parts[0] == InsiderKind() && FindsMeasure(InsiderMeasures(), parts[1]) then ReadInsider(parts, lookback.value)
      else if parts[0] == CongressKind() && FindsMeasure(CongressMeasures(), parts[1]) then ReadCongress(parts, lookback.value)
      else None
  }

  function Parse(signature: Text, number: Text -> Option<int>): Option<Metric> {
    ReadParts(Split(signature, BAR), number)
  }

  /** `parseAlternativeDataMetricSignature`, in the order of its checks. */
  method ParseSignature(signature: Text, number: Text -> Option<int>) returns (metric: Option<Metric>)
    ensures metric == Parse(signature, number)
  {
    hide Ascii, Join, Split, StartsWith, CanonicalActorIds, InsiderMeasures, CongressMeasures, InsiderRoles, CongressOwners;
    assert InsiderKind() != CongressKind() by { assert |InsiderKind()| == 16 && |CongressKind()| == 17; }
    var parts := Split(signature, BAR);
    if |parts| < 3 {
      return None;
    }
    var rawKind, measure, rawLookback := parts[0], parts[1], parts[2];
    if rawKind != InsiderKind() && rawKind != CongressKind() {
      return None;
    }
    if !FindsMeasure(if rawKind == InsiderKind() then InsiderMeasures() else CongressMeasures(), measure) {
      return None;
    }
    var lookback := ReadLookback(rawLookback, number);
    if lookback.None? {
      return None;
    }
    if rawKind == InsiderKind() {
      if |parts| != 5 || parts[3] != Dash() {
        return None;
      }
      var roles := ReadFilter(InsiderRoles(), parts[4]);
      if roles.None? {
        return None;
      }
      return Some(Insider(measure, lookback.value, roles.value));
    }
    if |parts| < 4 {
      return None;
    }
    var scope := ParseScope(parts[3]);
    if scope.None? || |parts| != 6 {
      return None;
    }
    var chamber := parts[4];
    if chamber !in Chambers() {
      return None;
    }
    var owners := ReadFilter(CongressOwners(), parts[5]);
    if owners.None? {
      return None;
    }
    return Some(Congress(measure, lookback.value, scope.value, chamber, owners.value));
  }

  /** The branches that assign `scope`. */
  method ParseScope(rawScope: Text) returns (scope: Option<ActorScope>)
    ensures scope == ReadScope(rawScope)
  {
    hide Ascii, Join, Split, CanonicalActorIds;
    if rawScope == AnyText() {
      scope := Some(AnyActor);
    } else if StartsWith(rawScope, ActorPrefix()) {
      var actorId := rawScope[|ActorPrefix()|..];
      if |actorId| == 0 {
        return None;
      }
      scope := Some(Actors([actorId]));
    } else if StartsWith(rawScope, ActorsPrefix()) {
      var actorIds := Split(rawScope[|ActorsPrefix()|..], PLUS);
      if |actorIds| < 2 || |actorIds| > ACTOR_SCOPE_MAX_ACTORS
         || (exists i :: 0 <= i < |actorIds| && !IsActorScopeId(actorIds[i]))
         || Join(CanonicalActorIds(actorIds), PLUS) != Join(actorIds, PLUS)
      {
        return None;
      }
      scope := Some(Actors(actorIds));
    } else if StartsWith(rawScope, GroupPrefix()) {
      var groupId := rawScope[|GroupPrefix()|..];
      if |groupId| == 0 {
        return None;
      }
      scope := Some(Group(groupId));
    } else {
      return None;
    }
  }
}
