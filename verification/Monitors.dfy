/** Monitor slots of one user, from `packages/contracts/src/entitlements.ts`. */
module Monitors {
  import opened JsText
  import opened Wrappers
  import opened Collections
  import opened Limits
  import opened Sorting

  /** What deciding one Monitor needs: its intent, its age, and the size of the List it watches. */
  datatype Monitor = Monitor(id: Text, enabled: bool, createdAt: int, symbols: int)

  datatype Reason = MonitorCapacity | ListOverLimit

  datatype Status = Active | Disabled | Blocked(reason: Reason)

  /** The plan's limits and the locale's order on ids, which only has to be an order. */
  datatype Plan = Plan(maxActive: Limit, maxSymbols: Limit, idOrder: (Text, Text) -> bool)

  ghost predicate IdsOrdered(plan: Plan) {
    && TotalPreorder(plan.idOrder)
    && forall a, b :: plan.idOrder(a, b) && plan.idOrder(b, a) ==> a == b
  }

  function Older(plan: Plan): (Monitor, Monitor) -> bool {
    (a: Monitor, b: Monitor) => a.createdAt < b.createdAt || (a.createdAt == b.createdAt && plan.idOrder(a.id, b.id))
  }

  predicate DistinctIds(monitors: seq<Monitor>) {
    forall i, j :: 0 <= i < j < |monitors| ==> monitors[i].id != monitors[j].id
  }

  // ---- The rule, by rank ----------------------------------------------------------------------

  /** The enabled Monitors that come before one. */
  function Ahead(plan: Plan, monitors: set<Monitor>, m: Monitor): set<Text> {
    set x | x in monitors && x.enabled && x != m && Older(plan)(x, m) :: x.id
  }

  /** An enabled Monitor holds a slot when the plan has room for it and everyone before it. */
  predicate HoldsSlot(plan: Plan, monitors: set<Monitor>, m: Monitor) {
    m.enabled && WithinLimit(plan.maxActive, |Ahead(plan, monitors, m)| + 1)
  }

  function Verdict(plan: Plan, monitors: set<Monitor>, m: Monitor): Status {
    if !m.enabled then Disabled
    else if !HoldsSlot(plan, monitors, m) then Blocked(MonitorCapacity)
    else if !WithinLimit(plan.maxSymbols, m.symbols) then Blocked(ListOverLimit)
    else Active
  }

  function SetOf(monitors: seq<Monitor>): set<Monitor> { set m | m in monitors }

  // ---- The code -------------------------------------------------------------------------------

  function EnabledIds(monitors: seq<Monitor>): set<Text> { set x | x in monitors && x.enabled :: x.id }

  lemma OlderIsOrder(plan: Plan)
    requires IdsOrdered(plan)
    ensures TotalPreorder(Older(plan))
  {
    var le := Older(plan);
    forall x, y ensures le(x, y) || le(y, x) {
      assert plan.idOrder(x.id, y.id) || plan.idOrder(y.id, x.id);
    }
    forall x, y, z | le(x, y) && le(y, z) ensures le(x, z) {
      assert plan.idOrder(x.id, y.id) && plan.idOrder(y.id, z.id) ==> plan.idOrder(x.id, z.id);
    }
  }

  /** Sorting keeps the ids distinct. */
  lemma DistinctInOrder(s: seq<Monitor>, t: seq<Monitor>)
    requires DistinctIds(s) && multiset(s) == multiset(t)
    ensures DistinctIds(t) && SetOf(s) == SetOf(t)
  {
    forall m ensures m in s <==> m in t {
      assert m in s <==> m in multiset(s);
    }
    PermutationDistinct(s, t);
    forall i, j | 0 <= i < j < |t| ensures t[i].id != t[j].id {
      assert t[i] in s && t[j] in s && t[i] != t[j];
    }
  }

  /** In sorted order, the enabled Monitors ahead are those that were visited. */
  lemma AheadIsVisited(plan: Plan, ordered: seq<Monitor>, at: nat)
    requires IdsOrdered(plan) && DistinctIds(ordered) && Sorted(ordered, Older(plan)) && at < |ordered|
    ensures Ahead(plan, SetOf(ordered), ordered[at]) == EnabledIds(ordered[..at])
  {
    var m := ordered[at];
    forall x | x in SetOf(ordered) && x != m
      ensures Older(plan)(x, m) <==> x in ordered[..at]
    {
      var k :| 0 <= k < |ordered| && ordered[k] == x;
      if k < at {
        assert ordered[..at][k] == x;
      } else {
        assert Older(plan)(m, x);
      }
    }
    assert m !in ordered[..at];
    assert forall x :: x in ordered[..at] ==> x in SetOf(ordered);
  }

  lemma OneMoreVisited(ordered: seq<Monitor>, at: nat)
    requires DistinctIds(ordered) && at < |ordered|
    ensures |EnabledIds(ordered[..at + 1])| == |EnabledIds(ordered[..at])| + if ordered[at].enabled then 1 else 0
  {
    var m, before := ordered[at], ordered[..at];
    assert ordered[..at + 1] == before + [m];
    if m.enabled {
      assert EnabledIds(before + [m]) == EnabledIds(before) + {m.id};
    } else {
      assert EnabledIds(before + [m]) == EnabledIds(before);
    }
  }

  /** The counter the loop keeps answers as the rank would: it stops at the capacity, the rank runs on. */
  lemma VerdictAt(plan: Plan, ordered: seq<Monitor>, at: nat, slotsTaken: int)
    requires IdsOrdered(plan) && DistinctIds(ordered) && Sorted(ordered, Older(plan)) && at < |ordered|
    requires var seen := |EnabledIds(ordered[..at])|;
      0 <= slotsTaken <= seen && (slotsTaken < seen ==> !WithinLimit(plan.maxActive, slotsTaken + 1))
    ensures Verdict(plan, SetOf(ordered), ordered[at])
         == if !ordered[at].enabled then Disabled
            else if !WithinLimit(plan.maxActive, slotsTaken + 1) then Blocked(MonitorCapacity)
            else if !WithinLimit(plan.maxSymbols, ordered[at].symbols) then Blocked(ListOverLimit)
            else Active
  {
    AheadIsVisited(plan, ordered, at);
  }

  lemma NobodyVisited(ordered: seq<Monitor>)
    ensures |EnabledIds(ordered[..0])| == 0
  {
    assert EnabledIds(ordered[..0]) == {};
  }

  // ---- What the rule means --------------------------------------------------------------------

  ghost predicate OwnIds(monitors: set<Monitor>) {
    forall x, y :: x in monitors && y in monitors && x.id == y.id ==> x == y
  }

  function Enabled(monitors: set<Monitor>): set<Text> { set x | x in monitors && x.enabled :: x.id }

  function Holders(plan: Plan, monitors: set<Monitor>): set<Text> {
    set x | x in monitors && HoldsSlot(plan, monitors, x) :: x.id
  }

  /** The order of the rows does not matter. */
  lemma OrderOfRowsIrrelevant(plan: Plan, s: seq<Monitor>, t: seq<Monitor>, m: Monitor)
    requires multiset(s) == multiset(t)
    ensures Verdict(plan, SetOf(s), m) == Verdict(plan, SetOf(t), m)
  {
    forall x ensures x in s <==> x in t {
      assert x in s <==> x in multiset(s);
    }
    assert SetOf(s) == SetOf(t);
  }

  /** Whoever is enabled and created before a slot holder, or at the same time with an id that comes before, holds a
  slot too. */
  lemma OlderHoldsToo(plan: Plan, monitors: set<Monitor>, x: Monitor, m: Monitor)
    requires IdsOrdered(plan) && OwnIds(monitors) && x in monitors && m in monitors
    requires x.createdAt < m.createdAt || (x.createdAt == m.createdAt && plan.idOrder(x.id, m.id))
    requires x.enabled && HoldsSlot(plan, monitors, m)
    ensures HoldsSlot(plan, monitors, x)
  {
    OlderIsOrder(plan);
    if x != m {
      assert Ahead(plan, monitors, x) <= Ahead(plan, monitors, m) by {
        NotBoth(plan, x, m);
        assert forall y :: Older(plan)(y, x) ==> Older(plan)(y, m);
      }
      SubsetSize(Ahead(plan, monitors, x), Ahead(plan, monitors, m));
    }
  }

  lemma NotBoth(plan: Plan, x: Monitor, y: Monitor)
    requires IdsOrdered(plan) && x.id != y.id
    ensures !(Older(plan)(x, y) && Older(plan)(y, x))
  {
  }

  lemma Youngest(plan: Plan, s: set<Monitor>) returns (m: Monitor)
    requires IdsOrdered(plan) && s != {}
    ensures m in s && forall x :: x in s ==> Older(plan)(x, m)
  {
    OlderIsOrder(plan);
    var le := Older(plan);
    m :| m in s;
    assert le(m, m);
    if s != {m} {
      assert s == s - {m} + {m};
      var n := Youngest(plan, s - {m});
      assert forall x :: x in s ==> x == m || le(x, n);
      if le(m, n) { m := n; } else { assert le(n, m); }
    }
  }

  function SlotsFor(plan: Plan, enabled: nat): nat {
    if plan.maxActive.None? || enabled <= plan.maxActive.value then enabled else plan.maxActive.value
  }

  lemma WithoutYoungest(plan: Plan, monitors: set<Monitor>, m: Monitor, x: Monitor)
    requires IdsOrdered(plan) && OwnIds(monitors) && m in monitors && x in monitors && x.enabled && x != m
    requires Older(plan)(x, m)
    ensures Ahead(plan, monitors - {m}, x) == Ahead(plan, monitors, x)
  {
    NotBoth(plan, x, m);
  }

  /** Exactly as many Monitors hold a slot as the plan has slots, or all that are enabled if fewer. */
  lemma {:induction false} SlotCount(plan: Plan, monitors: set<Monitor>)
    requires IdsOrdered(plan) && OwnIds(monitors)
    ensures |Holders(plan, monitors)| == SlotsFor(plan, |Enabled(monitors)|)
    decreases monitors
  {
    if forall x :: x in monitors ==> !x.enabled {
      NobodyEnabled(plan, monitors);
    } else {
      var on := set x | x in monitors && x.enabled;
      var someone :| someone in monitors && someone.enabled;
      assert someone in on;
      var m := Youngest(plan, on);
      hide Ahead;
      hide Holders;
      hide Enabled;
      hide Older;
      SlotCount(plan, monitors - {m});
      YoungestLast(plan, monitors, m);
      HoldersSplit(plan, monitors, m);
    }
  }

  lemma NobodyEnabled(plan: Plan, monitors: set<Monitor>)
    requires forall x :: x in monitors ==> !x.enabled
    ensures Enabled(monitors) == {} && Holders(plan, monitors) == {}
  {
  }

  /** Without the youngest enabled Monitor, the others stand where they stood. */
  lemma YoungestLast(plan: Plan, monitors: set<Monitor>, m: Monitor)
    requires IdsOrdered(plan) && OwnIds(monitors) && m in monitors && m.enabled
    requires forall x :: x in monitors && x.enabled ==> Older(plan)(x, m)
    ensures |Ahead(plan, monitors, m)| == |Enabled(monitors - {m})| == |Enabled(monitors)| - 1
    ensures forall x :: x in monitors - {m} ==> HoldsSlot(plan, monitors - {m}, x) == HoldsSlot(plan, monitors, x)
  {
    var rest := monitors - {m};
    assert Ahead(plan, monitors, m) == Enabled(rest);
    assert Enabled(monitors) == Enabled(rest) + {m.id} && m.id !in Enabled(rest);
    forall x | x in rest ensures HoldsSlot(plan, rest, x) == HoldsSlot(plan, monitors, x) {
      if x.enabled { WithoutYoungest(plan, monitors, m, x); }
    }
  }

  lemma HoldersSplit(plan: Plan, monitors: set<Monitor>, m: Monitor)
    requires OwnIds(monitors) && m in monitors
    requires forall x :: x in monitors - {m} ==> HoldsSlot(plan, monitors - {m}, x) == HoldsSlot(plan, monitors, x)
    ensures var rest := Holders(plan, monitors - {m});
      Holders(plan, monitors) == (if HoldsSlot(plan, monitors, m) then rest + {m.id} else rest) && m.id !in rest
  {
    hide HoldsSlot;
    var rest := monitors - {m};
    forall id ensures id in Holders(plan, monitors) <==>
      id in Holders(plan, rest) || (HoldsSlot(plan, monitors, m) && id == m.id)
    {
      if id in Holders(plan, monitors) {
        var x :| x in monitors && HoldsSlot(plan, monitors, x) && x.id == id;
        if x != m { assert x in rest; }
      }
      if id in Holders(plan, rest) {
        var x :| x in rest && HoldsSlot(plan, rest, x) && x.id == id;
        assert x in monitors && HoldsSlot(plan, monitors, x);
      }
    }
  }

  // ---- The answers, by creation and id --------------------------------------------------------

  /** The Monitors given a slot, whether or not the List fits. */
  function Slotted(result: seq<Status>): set<nat> {
    set i: nat | i < |result| && (result[i] == Active || result[i] == Blocked(ListOverLimit))
  }

  function EnabledAt(monitors: seq<Monitor>): set<nat> { set i: nat | i < |monitors| && monitors[i].enabled }

  ghost predicate Fits(plan: Plan, m: Monitor, status: Status) {
    && (status == Disabled <==> !m.enabled)
    && (status == Active ==> plan.maxSymbols.None? || m.symbols <= plan.maxSymbols.value)
    && (status == Blocked(ListOverLimit) ==> plan.maxSymbols.Some? && m.symbols > plan.maxSymbols.value)
  }

  lemma VerdictFits(plan: Plan, monitors: set<Monitor>, m: Monitor)
    ensures Fits(plan, m, Verdict(plan, monitors, m))
  {
    hide HoldsSlot;
  }

  /**
   * The slots go to the least of the enabled Monitors by creation and then id, as many as the plan has slots or all
   * that are enabled if fewer; a slot is of use while the List fits; and who is not enabled is answered so.
   */
  ghost predicate IsDivision(plan: Plan, monitors: seq<Monitor>, result: seq<Status>) {
    && |result| == |monitors|
    && (forall i :: 0 <= i < |monitors| ==> Fits(plan, monitors[i], result[i]))
    && |Slotted(result)| == (if plan.maxActive.Some? && plan.maxActive.value < |EnabledAt(monitors)|
                             then plan.maxActive.value else |EnabledAt(monitors)|)
    && OldestFirst(plan, monitors, Slotted(result))
  }

  ghost predicate OldestFirst(plan: Plan, monitors: seq<Monitor>, slotted: set<nat>) {
    forall i, j :: 0 <= i < |monitors| && 0 <= j < |monitors| && monitors[i].enabled && j in slotted ==>
      monitors[i].createdAt < monitors[j].createdAt
      || (monitors[i].createdAt == monitors[j].createdAt && plan.idOrder(monitors[i].id, monitors[j].id))
      ==> i in slotted
  }

  lemma {:induction false} IdsOf(monitors: seq<Monitor>, indices: set<nat>)
    requires DistinctIds(monitors) && forall i :: i in indices ==> i < |monitors|
    ensures |set i | i in indices :: monitors[i].id| == |indices|
    decreases |indices|
  {
    var ids := set i | i in indices :: monitors[i].id;
    if indices != {} {
      var k :| k in indices;
      var rest := indices - {k};
      IdsOf(monitors, rest);
      var others := set i | i in rest :: monitors[i].id;
      assert ids == others + {monitors[k].id};
      assert monitors[k].id !in others;
    }
  }

  lemma SlottedAreHolders(plan: Plan, monitors: seq<Monitor>, result: seq<Status>)
    requires DistinctIds(monitors) && |result| == |monitors|
    requires forall i :: 0 <= i < |monitors| ==> result[i] == Verdict(plan, SetOf(monitors), monitors[i])
    ensures |Slotted(result)| == |Holders(plan, SetOf(monitors))|
    ensures |EnabledAt(monitors)| == |Enabled(SetOf(monitors))|
    ensures OwnIds(SetOf(monitors))
    ensures forall i :: 0 <= i < |monitors| ==> (i in Slotted(result) <==> HoldsSlot(plan, SetOf(monitors), monitors[i]))
  {
    var all := SetOf(monitors);
    IdsOf(monitors, Slotted(result));
    IdsOf(monitors, EnabledAt(monitors));
    hide HoldsSlot;
    forall i | 0 <= i < |monitors| ensures i in Slotted(result) <==> HoldsSlot(plan, all, monitors[i]) {
      HoldersAreEnabled(plan, all, monitors[i]);
    }
    IdsAt(monitors, Slotted(result), Holders(plan, all), (m: Monitor) => HoldsSlot(plan, all, m));
    IdsAt(monitors, EnabledAt(monitors), Enabled(all), (m: Monitor) => m.enabled);
  }

  lemma HoldersAreEnabled(plan: Plan, monitors: set<Monitor>, m: Monitor)
    ensures HoldsSlot(plan, monitors, m) ==> m.enabled
  {
  }

  lemma IdsAt(monitors: seq<Monitor>, indices: set<nat>, ids: set<Text>, chosen: Monitor -> bool)
    requires forall i :: i in indices <==> 0 <= i < |monitors| && chosen(monitors[i])
    requires ids == set m | m in SetOf(monitors) && chosen(m) :: m.id
    ensures (set i | i in indices :: monitors[i].id) == ids
  {
    forall id | id in ids ensures id in set i | i in indices :: monitors[i].id {
      var m :| m in SetOf(monitors) && chosen(m) && m.id == id;
      var i :| 0 <= i < |monitors| && monitors[i] == m;
      assert i in indices;
    }
    forall i | i in indices ensures monitors[i].id in ids { assert monitors[i] in SetOf(monitors); }
  }

  lemma VerdictsDivide(plan: Plan, monitors: seq<Monitor>, result: seq<Status>)
    requires IdsOrdered(plan) && DistinctIds(monitors) && |result| == |monitors|
    requires forall i :: 0 <= i < |monitors| ==> result[i] == Verdict(plan, SetOf(monitors), monitors[i])
    ensures IsDivision(plan, monitors, result)
  {
    SlottedAreHolders(plan, monitors, result);
    SlotsInOrder(plan, monitors, result);
    SlotCount(plan, SetOf(monitors));
    hide HoldsSlot, Holders, Enabled, Slotted, EnabledAt, IdsOrdered, DistinctIds, Fits, Verdict, OldestFirst, OwnIds;
    forall i | 0 <= i < |monitors| ensures Fits(plan, monitors[i], result[i]) {
      VerdictFits(plan, SetOf(monitors), monitors[i]);
    }
  }

  lemma SlotsInOrder(plan: Plan, monitors: seq<Monitor>, result: seq<Status>)
    requires IdsOrdered(plan) && OwnIds(SetOf(monitors)) && |result| == |monitors|
    requires forall i :: 0 <= i < |monitors| ==> (i in Slotted(result) <==> HoldsSlot(plan, SetOf(monitors), monitors[i]))
    ensures OldestFirst(plan, monitors, Slotted(result))
  {
    hide HoldsSlot, Slotted, IdsOrdered, OwnIds;
    forall i, j | 0 <= i < |monitors| && 0 <= j < |monitors| && monitors[i].enabled && j in Slotted(result)
      ensures monitors[i].createdAt < monitors[j].createdAt
              || (monitors[i].createdAt == monitors[j].createdAt && plan.idOrder(monitors[i].id, monitors[j].id))
              ==> i in Slotted(result)
    {
      var x, m := monitors[i], monitors[j];
      if x.createdAt < m.createdAt || (x.createdAt == m.createdAt && plan.idOrder(x.id, m.id)) {
        OlderHoldsToo(plan, SetOf(monitors), x, m);
      }
    }
  }

  method ResolveMonitorEligibility(plan: Plan, monitors: seq<Monitor>) returns (result: seq<Status>)
    requires IdsOrdered(plan) && DistinctIds(monitors)
    ensures |result| == |monitors|
    ensures forall i :: 0 <= i < |monitors| ==> result[i] == Verdict(plan, SetOf(monitors), monitors[i])
    ensures IsDivision(plan, monitors, result)
  {
    hide Verdict;
    hide EnabledIds;
    hide DistinctIds;
    hide IdsOrdered;
    hide Sorted;
    hide TotalPreorder;
    var ordered := Sort(monitors, Older(plan));
    OlderIsOrder(plan);
    SortSorted(monitors, Older(plan));
    DistinctInOrder(monitors, ordered);
    var slotsTaken := 0;
    var byId: map<Text, Status> := map[];
    ghost var seen := 0;
    NobodyVisited(ordered);
    for at := 0 to |ordered|
      invariant 0 <= slotsTaken <= seen == |EnabledIds(ordered[..at])|
      invariant slotsTaken < seen ==> !WithinLimit(plan.maxActive, slotsTaken + 1)
      invariant forall i :: 0 <= i < at ==>
        ordered[i].id in byId && byId[ordered[i].id] == Verdict(plan, SetOf(ordered), ordered[i])
    {
      var monitor := ordered[at];
      VerdictAt(plan, ordered, at, slotsTaken);
      OneMoreVisited(ordered, at);
      if !monitor.enabled {
        byId := byId[monitor.id := Disabled];
        continue;
      }
      seen := seen + 1;
      if !WithinLimit(plan.maxActive, slotsTaken + 1) {
        byId := byId[monitor.id := Blocked(MonitorCapacity)];
        continue;
      }
      slotsTaken := slotsTaken + 1;
      if !WithinLimit(plan.maxSymbols, monitor.symbols) {
        byId := byId[monitor.id := Blocked(ListOverLimit)];
        continue;
      }
      byId := byId[monitor.id := Active];
    }
    forall i | 0 <= i < |monitors|
      ensures monitors[i].id in byId && byId[monitors[i].id] == Verdict(plan, SetOf(monitors), monitors[i])
    {
      assert monitors[i] in SetOf(ordered);
      var k :| 0 <= k < |ordered| && ordered[k] == monitors[i];
    }
    result := seq(|monitors|, i requires 0 <= i < |monitors| =>
      if monitors[i].id in byId then byId[monitors[i].id] else Disabled);
    VerdictsDivide(plan, monitors, result);
  }

  function Switched(monitors: set<Monitor>, h: Monitor): set<Monitor> {
    monitors - {h} + {h.(enabled := false)}
  }

  /** Disabling a slot holder promotes whoever has just the capacity before it, and nobody else changes. */
  lemma DisablePromotesRank(plan: Plan, monitors: set<Monitor>, h: Monitor, m: Monitor)
    requires IdsOrdered(plan) && OwnIds(monitors) && h in monitors && m in monitors && m != h
    requires HoldsSlot(plan, monitors, h)
    ensures HoldsSlot(plan, Switched(monitors, h), m) <==>
      HoldsSlot(plan, monitors, m)
      || (m.enabled && plan.maxActive.Some? && |Ahead(plan, monitors, m)| == plan.maxActive.value)
  {
    var after := Ahead(plan, Switched(monitors, h), m);
    var before := Ahead(plan, monitors, m);
    forall id ensures id in after <==> id in before && id != h.id {
      if id in before && id != h.id {
        var x :| x in monitors && x.enabled && x != m && Older(plan)(x, m) && x.id == id;
        assert x in Switched(monitors, h);
      }
    }
    if h.id in before {
      assert after == before - {h.id};
    } else if m.enabled {
      assert after == before;
      OlderIsOrder(plan);
      assert Older(plan)(m, h);
      OlderHoldsToo(plan, monitors, m, h);
    }
  }

  /** The oldest of the enabled Monitors without a slot. */
  ghost predicate IsNext(plan: Plan, monitors: set<Monitor>, m: Monitor) {
    && m in monitors && m.enabled && !HoldsSlot(plan, monitors, m)
    && forall x :: x in monitors && x.enabled && !HoldsSlot(plan, monitors, x) ==>
      m.createdAt < x.createdAt || (m.createdAt == x.createdAt && plan.idOrder(m.id, x.id))
  }

  lemma NextIsOne(plan: Plan, monitors: set<Monitor>, m: Monitor, x: Monitor)
    requires IdsOrdered(plan) && OwnIds(monitors) && IsNext(plan, monitors, m) && IsNext(plan, monitors, x)
    ensures m == x
  {
    hide HoldsSlot;
    if m.id != x.id { NotBoth(plan, m, x); }
  }

  /** Behind the next Monitor there is nobody without a slot, so its rank is the capacity. */
  lemma NextHasRank(plan: Plan, monitors: set<Monitor>, m: Monitor)
    requires IdsOrdered(plan) && OwnIds(monitors) && IsNext(plan, monitors, m)
    ensures plan.maxActive.Some? && |Ahead(plan, monitors, m)| == plan.maxActive.value
  {
    var ahead := Ahead(plan, monitors, m);
    assert plan.maxActive.Some? && |ahead| >= plan.maxActive.value;
    forall id | id in ahead ensures id in Holders(plan, monitors) {
      var x :| x in monitors && x.enabled && x != m && Older(plan)(x, m) && x.id == id;
      NotBoth(plan, x, m);
    }
    hide HoldsSlot, Holders, Ahead, Older, IsNext;
    SubsetSize(ahead, Holders(plan, monitors));
    SlotCount(plan, monitors);
  }

  lemma RankIsNext(plan: Plan, monitors: set<Monitor>, m: Monitor)
    requires IdsOrdered(plan) && OwnIds(monitors) && m in monitors && m.enabled
    requires plan.maxActive.Some? && |Ahead(plan, monitors, m)| == plan.maxActive.value
    ensures IsNext(plan, monitors, m)
  {
    OlderIsOrder(plan);
    forall x | x in monitors && x.enabled && !HoldsSlot(plan, monitors, x) ensures Older(plan)(m, x) {
      if !Older(plan)(m, x) { AheadGrows(plan, monitors, x, m); }
    }
  }

  lemma AheadGrows(plan: Plan, monitors: set<Monitor>, x: Monitor, m: Monitor)
    requires IdsOrdered(plan) && OwnIds(monitors) && x in monitors && x.enabled && m in monitors && !Older(plan)(m, x)
    ensures |Ahead(plan, monitors, x)| < |Ahead(plan, monitors, m)|
  {
    OlderIsOrder(plan);
    var less, more := Ahead(plan, monitors, x), Ahead(plan, monitors, m);
    assert x.id in more && x.id !in less;
    forall id | id in less ensures id in more {
      var y :| y in monitors && y.enabled && y != x && Older(plan)(y, x) && y.id == id;
      assert Older(plan)(x, m) && Older(plan)(y, m);
      if y == m { NotBoth(plan, x, m); }
    }
    hide Ahead, Older;
    SubsetSize(less + {x.id}, more);
  }

  /** Disabling a slot holder promotes the oldest blocked Monitor, and nobody else changes. */
  lemma DisablePromotesNext(plan: Plan, monitors: set<Monitor>, h: Monitor, m: Monitor)
    requires IdsOrdered(plan) && OwnIds(monitors) && h in monitors && m in monitors && m != h
    requires HoldsSlot(plan, monitors, h)
    ensures HoldsSlot(plan, Switched(monitors, h), m) <==> HoldsSlot(plan, monitors, m) || IsNext(plan, monitors, m)
  {
    DisablePromotesRank(plan, monitors, h, m);
    hide HoldsSlot, Ahead, Switched, IdsOrdered;
    if IsNext(plan, monitors, m) { NextHasRank(plan, monitors, m); }
    if m.enabled && plan.maxActive.Some? && |Ahead(plan, monitors, m)| == plan.maxActive.value { RankIsNext(plan, monitors, m); }
  }

  /** A List's new size, as seen by the Monitors that watch it. */
  function Resized(m: Monitor, watching: set<Text>, symbols: int): Monitor {
    if m.id in watching then m.(symbols := symbols) else m
  }

  function ResizedAll(monitors: set<Monitor>, watching: set<Text>, symbols: int): set<Monitor> {
    set m | m in monitors :: Resized(m, watching, symbols)
  }

  /** Resizing a List moves no slot, and changes the answer for no Monitor that does not watch it. */
  lemma ResizeMovesNoSlot(plan: Plan, monitors: set<Monitor>, watching: set<Text>, symbols: int, m: Monitor)
    requires OwnIds(monitors) && m in monitors
    ensures var after := ResizedAll(monitors, watching, symbols);
      && HoldsSlot(plan, after, Resized(m, watching, symbols)) == HoldsSlot(plan, monitors, m)
      && (m.id !in watching ==> Verdict(plan, after, m) == Verdict(plan, monitors, m))
  {
    var after := ResizedAll(monitors, watching, symbols);
    var m' := Resized(m, watching, symbols);
    forall id ensures id in Ahead(plan, after, m') <==> id in Ahead(plan, monitors, m) {
      if id in Ahead(plan, monitors, m) {
        var x :| x in monitors && x.enabled && x != m && Older(plan)(x, m) && x.id == id;
        assert Resized(x, watching, symbols) in after;
      }
      if id in Ahead(plan, after, m') {
        var x' :| x' in after && x'.enabled && x' != m' && Older(plan)(x', m') && x'.id == id;
        var x :| x in monitors && x' == Resized(x, watching, symbols);
      }
    }
    assert Ahead(plan, after, m') == Ahead(plan, monitors, m);
  }

  /** A larger capacity takes no slot away. */
  lemma RaisingCapacityBlocksNobody(plan: Plan, more: Limit, monitors: set<Monitor>, m: Monitor)
    requires more.None? || (plan.maxActive.Some? && plan.maxActive.value <= more.value)
    requires HoldsSlot(plan, monitors, m)
    ensures HoldsSlot(plan.(maxActive := more), monitors, m)
  {
    assert Ahead(plan.(maxActive := more), monitors, m) == Ahead(plan, monitors, m);
  }

  /** `assertCanEnableMonitor`, given how many other Monitors are enabled. */
  datatype Answer = Allowed | NotSignedIn | OverLimit

  function CanEnable(authenticated: bool, plan: Plan, activeCount: int): Answer {
    if !authenticated then NotSignedIn
    else if !WithinLimit(plan.maxActive, activeCount + 1) then OverLimit
    else Allowed
  }

  /** Enabling a Monitor is allowed exactly when it leaves no enabled Monitor without a slot. */
  lemma EnableLeavesNobodyBlocked(plan: Plan, monitors: set<Monitor>, m: Monitor)
    requires IdsOrdered(plan) && OwnIds(monitors) && m in monitors && m.enabled
    ensures CanEnable(true, plan, |Enabled(monitors - {m})|) == Allowed <==>
      forall x :: x in monitors && x.enabled ==> HoldsSlot(plan, monitors, x)
  {
    assert Enabled(monitors) == Enabled(monitors - {m}) + {m.id} && m.id !in Enabled(monitors - {m});
    SlotCount(plan, monitors);
    assert Holders(plan, monitors) <= Enabled(monitors);
    if forall x :: x in monitors && x.enabled ==> HoldsSlot(plan, monitors, x) {
      assert Holders(plan, monitors) == Enabled(monitors);
    } else {
      var x :| x in monitors && x.enabled && !HoldsSlot(plan, monitors, x);
      assert x.id in Enabled(monitors) && x.id !in Holders(plan, monitors);
      SubsetSize(Holders(plan, monitors), Enabled(monitors) - {x.id});
    }
  }
}
