/** What holds in every run of the supervisor: each slot is served, backoff is exact, and shutdown completes. */
module SupervisorRuns {
  import opened Collections
  import opened Wrappers
  import opened DecimalText
  import opened Supervisor

  /** What the event loop can deliver. The `error` event of a child changes nothing. */
  datatype Event =
    | Exit(pid: Pid)
    | Error(pid: Pid)
    | Fire(timer: Handle)
    | Signal
    | Pass(ms: nat)

  /** A timer fires no earlier than it is due. */
  predicate Enabled(s: State, e: Event) {
    match e
    case Exit(pid) => pid in s.running
    case Error(pid) => true
    case Fire(h) => h in s.timers && s.timers[h].due <= s.clock
    case Signal => true
    case Pass(_) => true
  }

  function Next(s: State, e: Event): State
    requires Enabled(s, e)
  {
    match e
    case Exit(pid) => ChildExited(s, pid)
    case Error(_) => s
    case Fire(h) => TimerFired(s, h)
    case Signal => ShutDown(s)
    case Pass(ms) => s.(clock := s.clock + ms)
  }

  predicate IsRun(slots: seq<Slot>, events: seq<Event>)
    decreases |events|, 0
  {
    events == []
    || (IsRun(slots, events[..|events| - 1])
        && Enabled(After(slots, events[..|events| - 1]), events[|events| - 1]))
  }

  /** The state after a run from start-up over `slots`. */
  function After(slots: seq<Slot>, events: seq<Event>): State
    requires IsRun(slots, events)
    decreases |events|, 1
  {
    if events == [] then Started(slots)
    else Next(After(slots, events[..|events| - 1]), events[|events| - 1])
  }

  // ---- Slots have distinct identifiers --------------------------------------------------------

  ghost predicate Configured(kinds: seq<Kind>, slot: Slot) {
    exists i :: 0 <= i < |kinds| && slot.kind == kinds[i].name && slot.index < kinds[i].processes
  }

  lemma {:induction false} SlotsAreConfigured(kinds: seq<Kind>, slot: Slot)
    ensures slot in SlotsOf(kinds) <==> Configured(kinds, slot)
  {
    if kinds != [] {
      var rest, last := kinds[..|kinds| - 1], kinds[|kinds| - 1];
      SlotsAreConfigured(rest, slot);
      if Configured(rest, slot) {
        var i :| 0 <= i < |rest| && slot.kind == rest[i].name && slot.index < rest[i].processes;
        assert kinds[i] == rest[i];
      }
      if slot.kind == last.name && slot.index < last.processes {
        assert KindSlots(last, last.processes)[slot.index] == slot;
      }
    }
  }

  ghost predicate NamedApart(kinds: seq<Kind>) {
    forall i, j :: 0 <= i < j < |kinds| ==> kinds[i].name != kinds[j].name
  }

  lemma {:induction false} SlotsAreDistinct(kinds: seq<Kind>)
    requires NamedApart(kinds)
    ensures Distinct(SlotsOf(kinds))
  {
    if kinds != [] {
      var rest, last := kinds[..|kinds| - 1], kinds[|kinds| - 1];
      SlotsAreDistinct(rest);
      forall slot | slot in SlotsOf(rest) ensures slot.kind != last.name { SlotsAreConfigured(rest, slot); }
    }
  }

  /** Kinds cannot collide: the identifier determines the kind and the ordinal. */
  lemma ChildIdDetermines(a: Slot, b: Slot)
    requires ChildId(a) == ChildId(b)
    ensures a == b
  {
    var x, y := Decimal(a.index), Decimal(b.index);
    var t := ChildId(a);
    assert t == a.kind + [45] + x && t == b.kind + [45] + y;
    assert t[|a.kind|] == 45 && t[|b.kind|] == 45;
    assert forall i :: |a.kind| < i < |t| ==> t[i] == x[i - |a.kind| - 1];
    assert forall i :: |b.kind| < i < |t| ==> t[i] == y[i - |b.kind| - 1];
    assert |a.kind| == |b.kind|;
    assert a.kind == t[..|a.kind|] && b.kind == t[..|b.kind|];
    assert x == t[|a.kind| + 1..] && y == t[|b.kind| + 1..];
    NumberOfDecimal(a.index);
    NumberOfDecimal(b.index);
  }

  // ---- The invariant --------------------------------------------------------------------------

  /** The map entry of an identifier is the running child whose exit will be handled under it. */
  ghost predicate Tracked(s: State) {
    && (forall p :: p in s.running ==>
      && ChildId(s.running[p].slot) in s.children
      && s.children[ChildId(s.running[p].slot)].pid == p
      && s.children[ChildId(s.running[p].slot)].failures == s.running[p].failures)
    && (forall id :: id in s.children ==>
      s.children[id].pid in s.running && ChildId(s.running[s.children[id].pid].slot) == id)
  }

  /** Numbers of processes and timers still to come are unused. */
  ghost predicate Fresh(s: State) {
    && (forall p :: p in s.running ==> p < s.nextPid)
    && (forall h :: h in s.timers ==> h < s.nextHandle)
  }

  /** `restartTimers` is exactly the restarts still to fire, and a kill timer is the one held. */
  ghost predicate TimersKnown(s: State) {
    && (forall h :: h in s.restartTimers <==> h in s.timers && s.timers[h].Restart?)
    && (forall h :: h in s.timers && s.timers[h].ForceKill? ==> s.forceKillTimer == Some(h))
  }

  ghost predicate Pending(s: State, slot: Slot, h: Handle) {
    h in s.timers && s.timers[h].Restart? && s.timers[h].slot == slot
  }

  /** A slot is served by its child, or else by one restart timer. */
  ghost predicate Served(s: State, slot: Slot) {
    && (ChildId(slot) in s.children ==> forall h :: !Pending(s, slot, h))
    && (ChildId(slot) !in s.children ==> exists h :: Pending(s, slot, h))
    && (forall g, h :: Pending(s, slot, g) && Pending(s, slot, h) ==> g == h)
  }

  ghost predicate OnlySlots(slots: seq<Slot>, s: State) {
    && (forall p :: p in s.running ==> s.running[p].slot in slots)
    && (forall h :: h in s.timers && s.timers[h].Restart? ==> s.timers[h].slot in slots)
  }

  /** Before shutdown every slot is served; afterwards no restart is left and every child has been told. */
  ghost predicate Serving(slots: seq<Slot>, s: State) {
    if s.stopping then
      && s.restartTimers == {}
      && (forall p :: p in s.running ==> p in s.terminated)
    else
      && (forall slot :: slot in slots ==> Served(s, slot))
      && s.forceKillTimer == None
  }

  /** The stopped action has run once exactly when shutdown has begun and every child is gone. */
  ghost predicate StoppedOnce(s: State) {
    && s.stopped == (if s.stopping && s.children == map[] then 1 else 0)
    && (s.keepAlive <==> s.stopped == 0)
    && (s.stopped == 1 ==> s.timers == map[] && s.forceKillTimer == None)
  }

  ghost predicate Invariant(slots: seq<Slot>, s: State) {
    Tracked(s) && Fresh(s) && TimersKnown(s) && OnlySlots(slots, s) && Serving(slots, s) && StoppedOnce(s)
  }

  // ---- Each event keeps it --------------------------------------------------------------------

  lemma ChildIdsDetermine()
    ensures forall a, b {:trigger ChildId(a), ChildId(b)} :: ChildId(a) == ChildId(b) ==> a == b
  {
    forall a, b | ChildId(a) == ChildId(b) ensures a == b { ChildIdDetermines(a, b); }
  }

  lemma SpawnTracked(s: State, slot: Slot, failures: nat)
    requires Tracked(s) && Fresh(s) && ChildId(slot) !in s.children
    ensures Tracked(Spawned(s, slot, failures))
  {
    hide ChildId;
    ChildIdsDetermine();
  }

  lemma SpawnKeeps(slots: seq<Slot>, s: State, slot: Slot, failures: nat)
    requires Tracked(s) && Fresh(s) && TimersKnown(s) && OnlySlots(slots, s)
    requires ChildId(slot) !in s.children && slot in slots
    ensures var t := Spawned(s, slot, failures); Tracked(t) && Fresh(t) && TimersKnown(t) && OnlySlots(slots, t)
  {
    hide ChildId;
    SpawnTracked(s, slot, failures);
    hide Tracked;
  }

  lemma SpawnServes(s: State, slot: Slot, failures: nat, other: Slot)
    requires if other == slot then forall h :: !Pending(s, slot, h) else Served(s, other)
    ensures Served(Spawned(s, slot, failures), other)
  {
    hide ChildId;
    ChildIdsDetermine();
    var t := Spawned(s, slot, failures);
    assert forall h :: Pending(t, other, h) <==> Pending(s, other, h);
  }

  lemma RestartServes(s: State, slot: Slot, previousFailures: nat, other: Slot)
    requires Fresh(s)
    requires if other == slot then ChildId(slot) !in s.children && forall h :: !Pending(s, slot, h) else Served(s, other)
    ensures Served(RestartScheduled(s, slot, previousFailures), other)
  {
    hide ChildId, Delay;
    var t := RestartScheduled(s, slot, previousFailures);
    assert forall h :: h != s.nextHandle ==> (Pending(t, other, h) <==> Pending(s, other, h));
    assert Pending(t, slot, s.nextHandle);
  }

  /** At start-up every slot has its child and nothing else has happened. */
  ghost predicate JustStarted(slots: seq<Slot>, s: State) {
    && s == IDLE.(children := s.children, running := s.running, nextPid := s.nextPid)
    && (forall slot :: slot in slots ==> ChildId(slot) in s.children)
    && (forall id :: id in s.children ==> s.children[id].slot in slots && ChildId(s.children[id].slot) == id)
    && (forall p :: p in s.running ==> p < s.nextPid && s.running[p].slot in slots)
  }

  lemma SpawnJustStarted(rest: seq<Slot>, last: Slot, s: State)
    requires JustStarted(rest, s) && last !in rest
    ensures ChildId(last) !in s.children
    ensures JustStarted(rest + [last], Spawned(s, last, 0))
  {
    if ChildId(last) in s.children { ChildIdDetermines(s.children[ChildId(last)].slot, last); }
    hide ChildId;
    var t := Spawned(s, last, 0);
    forall slot | slot in rest + [last] ensures ChildId(slot) in t.children { assert slot in rest || slot == last; }
  }

  lemma {:induction false} StartedIs(slots: seq<Slot>)
    requires Distinct(slots)
    ensures JustStarted(slots, Started(slots)) && Tracked(Started(slots))
  {
    if slots != [] {
      var rest, last := slots[..|slots| - 1], slots[|slots| - 1];
      assert slots == rest + [last];
      StartedIs(rest);
      SpawnJustStarted(rest, last, Started(rest));
      SpawnTracked(Started(rest), last, 0);
      hide Tracked, JustStarted, ChildId;
    }
  }

  lemma StartServes(slots: seq<Slot>, s: State)
    requires JustStarted(slots, s)
    ensures forall slot :: slot in slots ==> Served(s, slot)
  {
    hide ChildId;
    assert s.timers == map[];
  }

  lemma StartKeeps(slots: seq<Slot>)
    requires Distinct(slots)
    ensures Invariant(slots, Started(slots))
  {
    StartedIs(slots);
    hide Tracked, Started;
    var s := Started(slots);
    hide ChildId;
    StartServes(slots, s);
    hide Served;
  }

  lemma ExitTracked(s: State, pid: Pid)
    requires Tracked(s) && pid in s.running
    ensures Tracked(s.(running := s.running - {pid}, children := s.children - {ChildId(s.running[pid].slot)}))
  {
    hide ChildId;
  }

  lemma RestartKeeps(slots: seq<Slot>, s: State, slot: Slot, previousFailures: nat)
    requires Tracked(s) && Fresh(s) && TimersKnown(s) && OnlySlots(slots, s) && slot in slots
    ensures var t := RestartScheduled(s, slot, previousFailures);
      Tracked(t) && Fresh(t) && TimersKnown(t) && OnlySlots(slots, t)
  {
    hide ChildId, Delay;
  }

  lemma ExitServes(s: State, pid: Pid, previousFailures: nat, other: Slot)
    requires Tracked(s) && Fresh(s) && pid in s.running && Served(s, other) && Served(s, s.running[pid].slot)
    ensures var slot := s.running[pid].slot;
      Served(RestartScheduled(s.(running := s.running - {pid}, children := s.children - {ChildId(slot)}), slot, previousFailures), other)
  {
    var slot := s.running[pid].slot;
    var t := s.(running := s.running - {pid}, children := s.children - {ChildId(slot)});
    if ChildId(other) == ChildId(slot) { ChildIdDetermines(other, slot); }
    hide ChildId;
    assert forall h :: Pending(s, other, h) <==> Pending(t, other, h);
    RestartServes(t, slot, previousFailures, other);
  }

  lemma ExitKeeps(slots: seq<Slot>, s: State, pid: Pid)
    requires Invariant(slots, s) && pid in s.running
    ensures Invariant(slots, ChildExited(s, pid))
  {
    hide ChildId, Served;
    var slot := s.running[pid].slot;
    var t := s.(running := s.running - {pid}, children := s.children - {ChildId(slot)});
    ExitTracked(s, pid);
    assert slot in slots;
    assert s.children != map[];
    hide Tracked;
    if s.stopping {
      FinishKeeps(slots, t);
    } else {
      var previous := if RanFor(s, ChildId(slot)) >= HEALTHY_RUNTIME_MS then 0 else s.running[pid].failures;
      RestartKeeps(slots, t, slot, previous);
      forall other | other in slots ensures Served(RestartScheduled(t, slot, previous), other) {
        ExitServes(s, pid, previous, other);
      }
      hide Fresh, TimersKnown, OnlySlots;
    }
  }

  /** Finishing is due when shutdown has begun and the action has not run. */
  lemma FinishKeeps(slots: seq<Slot>, s: State)
    requires Tracked(s) && Fresh(s) && TimersKnown(s) && OnlySlots(slots, s) && Serving(slots, s)
    requires s.stopping && s.stopped == 0 && s.keepAlive
    ensures Invariant(slots, Finished(s))
  {
    hide ChildId, Served;
    NoneLeft(s.children);
    var t := Finished(s);
    if s.children == map[] {
      assert forall h :: h in t.timers ==> h in s.timers && s.forceKillTimer != Some(h);
      assert t.timers == map[];
    }
  }

  lemma FireServes(s: State, h: Handle, other: Slot)
    requires TimersKnown(s) && h in s.timers && s.timers[h].Restart? && Served(s, other) && Served(s, s.timers[h].slot)
    ensures ChildId(s.timers[h].slot) !in s.children
    ensures Served(Spawned(s.(timers := s.timers - {h}, restartTimers := s.restartTimers - {h}), s.timers[h].slot, s.timers[h].failures), other)
  {
    hide ChildId;
    var slot := s.timers[h].slot;
    var t := s.(timers := s.timers - {h}, restartTimers := s.restartTimers - {h});
    assert Pending(s, slot, h);
    assert forall g :: Pending(t, other, g) <==> Pending(s, other, g) && g != h;
    SpawnServes(t, slot, s.timers[h].failures, other);
  }

  lemma FireKeeps(slots: seq<Slot>, s: State, h: Handle)
    requires Invariant(slots, s) && h in s.timers
    ensures Invariant(slots, TimerFired(s, h))
  {
    hide ChildId, Served;
    match s.timers[h]
    case Restart(_, slot, failures) =>
      assert !s.stopping && slot in slots;
      var t := s.(timers := s.timers - {h}, restartTimers := s.restartTimers - {h});
      FireServes(s, h, slot);
      assert Tracked(t) && Fresh(t) && TimersKnown(t) && OnlySlots(slots, t);
      SpawnKeeps(slots, t, slot, failures);
      forall other | other in slots ensures Served(Spawned(t, slot, failures), other) { FireServes(s, h, other); }
      hide Tracked, Fresh, TimersKnown, OnlySlots;
    case ForceKill(_) =>
  }

  /** The state in which shutdown looks for children still running. */
  function Stopping(s: State): State {
    s.(stopping := true,
       timers := (s.timers - s.restartTimers)[s.nextHandle := ForceKill(s.clock + SHUTDOWN_GRACE_MS)],
       restartTimers := {},
       terminated := s.terminated + ChildPids(s.children),
       forceKillTimer := Some(s.nextHandle),
       nextHandle := s.nextHandle + 1)
  }

  lemma EveryChildTold(s: State)
    requires Tracked(s)
    ensures forall p :: p in s.running ==> p in Stopping(s).terminated
  {
    hide ChildId;
    forall p | p in s.running ensures p in ChildPids(s.children) {
      assert ChildId(s.running[p].slot) in s.children;
    }
  }

  lemma StoppingTimers(slots: seq<Slot>, s: State)
    requires TimersKnown(s) && Fresh(s) && OnlySlots(slots, s) && s.forceKillTimer == None
    ensures TimersKnown(Stopping(s)) && Fresh(Stopping(s)) && OnlySlots(slots, Stopping(s))
  {
    hide ChildPids;
    var t := Stopping(s);
    forall h | h in t.timers ensures h == s.nextHandle || (h in s.timers && h !in s.restartTimers && t.timers[h] == s.timers[h]) { }
  }

  lemma ShutDownKeeps(slots: seq<Slot>, s: State)
    requires Invariant(slots, s)
    ensures Invariant(slots, ShutDown(s))
  {
    if !s.stopping {
      StoppingKeeps(slots, s);
      ShutDownIs(s);
      hide ShutDown, Stopping, Finished, Invariant, Tracked, Fresh, TimersKnown, OnlySlots, Serving;
      FinishKeeps(slots, Stopping(s));
    }
  }

  lemma StoppingKeeps(slots: seq<Slot>, s: State)
    requires Invariant(slots, s) && !s.stopping
    ensures var t := Stopping(s);
      && Tracked(t) && Fresh(t) && TimersKnown(t) && OnlySlots(slots, t) && Serving(slots, t)
      && t.stopping && t.stopped == 0 && t.keepAlive
  {
    EveryChildTold(s);
    StoppingTimers(slots, s);
    TrackedByChildren(s, Stopping(s));
    hide ChildId, Served, Tracked, Fresh, TimersKnown, OnlySlots, ChildPids;
  }

  lemma TrackedByChildren(s: State, t: State)
    requires Tracked(s) && t.children == s.children && t.running == s.running
    ensures Tracked(t)
  {
    hide ChildId;
  }

  lemma ShutDownIs(s: State)
    requires !s.stopping
    ensures ShutDown(s) == Finished(Stopping(s))
  {
    hide Finished, ChildPids;
  }

  lemma NextKeeps(slots: seq<Slot>, s: State, e: Event)
    requires Invariant(slots, s) && Enabled(s, e)
    ensures Invariant(slots, Next(s, e))
  {
    hide Invariant, ChildExited, TimerFired, ShutDown;
    match e
    case Exit(pid) => ExitKeeps(slots, s, pid);
    case Error(_) =>
    case Fire(h) => FireKeeps(slots, s, h);
    case Signal => ShutDownKeeps(slots, s);
    case Pass(ms) => PassKeeps(slots, s, ms);
  }

  lemma PassKeeps(slots: seq<Slot>, s: State, ms: nat)
    requires Invariant(slots, s)
    ensures Invariant(slots, s.(clock := s.clock + ms))
  {
    hide ChildId;
    var t := s.(clock := s.clock + ms);
    assert forall slot, h :: Pending(t, slot, h) <==> Pending(s, slot, h);
  }

  /** The invariant holds in every run. */
  lemma {:induction false} AlwaysInvariant(slots: seq<Slot>, events: seq<Event>)
    requires Distinct(slots) && IsRun(slots, events)
    ensures Invariant(slots, After(slots, events))
  {
    hide Invariant;
    if events == [] {
      StartKeeps(slots);
    } else {
      AlwaysInvariant(slots, events[..|events| - 1]);
      NextKeeps(slots, After(slots, events[..|events| - 1]), events[|events| - 1]);
    }
  }

  // ---- Before shutdown ------------------------------------------------------------------------

  /** The children running in a slot, and the restarts pending for it. */
  function ServerCount(s: State, slot: Slot): nat {
    |set p | p in s.running && s.running[p].slot == slot|
      + |set h | h in s.timers && s.timers[h].Restart? && s.timers[h].slot == slot|
  }

  /** Before shutdown each configured slot has exactly one of a running child and a pending restart, and there is no other. */
  lemma EachSlotHasOne(kinds: seq<Kind>, events: seq<Event>, slot: Slot)
    requires NamedApart(kinds) && IsRun(SlotsOf(kinds), events) && !After(SlotsOf(kinds), events).stopping
    ensures ServerCount(After(SlotsOf(kinds), events), slot) == if Configured(kinds, slot) then 1 else 0
  {
    var slots := SlotsOf(kinds);
    SlotsAreDistinct(kinds);
    SlotsAreConfigured(kinds, slot);
    AlwaysInvariant(slots, events);
    hide Invariant, IsRun, After, ServerCount, SlotsOf, Configured;
    if slot in slots { ServedByOne(slots, After(slots, events), slot); }
    else { ServedByNone(slots, After(slots, events), slot); }
  }

  lemma ServedByNone(slots: seq<Slot>, s: State, slot: Slot)
    requires Invariant(slots, s) && slot !in slots
    ensures ServerCount(s, slot) == 0
  {
    hide ChildId;
    assert (set p | p in s.running && s.running[p].slot == slot) == {};
    assert (set h | h in s.timers && s.timers[h].Restart? && s.timers[h].slot == slot) == {};
  }

  lemma ServedByOne(slots: seq<Slot>, s: State, slot: Slot)
    requires Invariant(slots, s) && !s.stopping && slot in slots
    ensures ServerCount(s, slot) == 1
  {
    assert Served(s, slot);
    var live := set p | p in s.running && s.running[p].slot == slot;
    var pending := set h | h in s.timers && s.timers[h].Restart? && s.timers[h].slot == slot;
    assert forall h :: h in pending <==> Pending(s, slot, h);
    var id := ChildId(slot);
    if id in s.children {
      var p := s.children[id].pid;
      ChildIdDetermines(s.running[p].slot, slot);
      hide ChildId;
      assert live == {p};
      assert pending == {};
    } else {
      hide ChildId;
      assert live == {};
      var h :| Pending(s, slot, h);
      assert pending == {h};
    }
  }

  /** Whatever exits next, the map entry under its identifier is that very child. */
  lemma ExitIsOfTheMappedChild(slots: seq<Slot>, events: seq<Event>, pid: Pid)
    requires Distinct(slots) && IsRun(slots, events) && pid in After(slots, events).running
    ensures var s := After(slots, events);
      && ChildId(s.running[pid].slot) in s.children
      && s.children[ChildId(s.running[pid].slot)].pid == pid
      && s.running[pid].slot in slots
      && forall other :: other in s.running && s.running[other].slot == s.running[pid].slot ==> other == pid
  {
    AlwaysInvariant(slots, events);
    hide ChildId;
  }

  // ---- Shutdown -------------------------------------------------------------------------------

  lemma NextAfterShutdown(slots: seq<Slot>, s: State, e: Event)
    requires Invariant(slots, s) && Enabled(s, e) && s.stopping
    ensures var t := Next(s, e); t.stopping && t.nextPid == s.nextPid && t.running.Keys <= s.running.Keys
  {
    hide ChildId;
  }

  /** Once shutdown has begun, no process is created in the rest of the run. */
  lemma {:induction false} NothingSpawnedAfterShutdown(slots: seq<Slot>, events: seq<Event>, i: nat)
    requires Distinct(slots) && IsRun(slots, events) && i <= |events|
    ensures IsRun(slots, events[..i])
    ensures After(slots, events[..i]).stopping ==>
      && After(slots, events).stopping
      && After(slots, events).nextPid == After(slots, events[..i]).nextPid
      && After(slots, events).running.Keys <= After(slots, events[..i]).running.Keys
    decreases |events|
  {
    if i == |events| {
      assert events[..i] == events;
    } else {
      var before := events[..|events| - 1];
      assert before[..i] == events[..i];
      NothingSpawnedAfterShutdown(slots, before, i);
      AlwaysInvariant(slots, before);
      hide Invariant, Next;
      if After(slots, events[..i]).stopping {
        NextAfterShutdown(slots, After(slots, before), events[|events| - 1]);
      }
    }
  }

  /** The stopped action has run exactly once when shutdown has begun and no child is left, and not before. */
  lemma StoppedExactlyOnce(slots: seq<Slot>, events: seq<Event>)
    requires Distinct(slots) && IsRun(slots, events)
    ensures var s := After(slots, events);
      && s.stopped == (if s.stopping && s.running == map[] then 1 else 0)
      && (s.stopped == 1 ==>
        !s.keepAlive && s.forceKillTimer == None && s.restartTimers == {} && s.timers == map[] && s.children == map[])
  {
    AlwaysInvariant(slots, events);
    hide ChildId;
    var s := After(slots, events);
    if s.children == map[] { assert s.running == map[]; }
    if s.running == map[] { assert s.children == map[]; }
  }

  /** While shutdown waits, every child has been sent SIGTERM, and SIGKILL once the grace timer has fired. */
  ghost predicate Told(s: State) {
    s.stopping && s.stopped == 0 ==>
      && (forall p :: p in s.running ==> p in s.terminated)
      && s.forceKillTimer.Some?
      && (s.forceKillTimer.value in s.timers || forall p :: p in s.running ==> p in s.killed)
  }

  lemma NextTold(slots: seq<Slot>, s: State, e: Event)
    requires Invariant(slots, s) && Enabled(s, e) && Told(s)
    ensures Told(Next(s, e))
  {
    hide ChildId, Served;
    NextKeeps(slots, s, e);
    match e
    case Exit(pid) =>
      NoneLeft(s.children - {ChildId(s.running[pid].slot)});
    case Error(_) =>
    case Fire(h) =>
      if s.timers[h].ForceKill? {
        forall p | p in s.running ensures p in ChildPids(s.children) { assert ChildId(s.running[p].slot) in s.children; }
      }
    case Signal =>
      NoneLeft(s.children);
      EveryChildTold(s);
      if !s.stopping { assert Next(s, e) == Finished(Stopping(s)); }
    case Pass(_) =>
  }

  lemma {:induction false} ChildrenAreTold(slots: seq<Slot>, events: seq<Event>)
    requires Distinct(slots) && IsRun(slots, events)
    ensures Told(After(slots, events))
  {
    if events == [] {
      StartedIs(slots);
    } else {
      var before := events[..|events| - 1];
      ChildrenAreTold(slots, before);
      AlwaysInvariant(slots, before);
      hide Invariant, Told;
      NextTold(slots, After(slots, before), events[|events| - 1]);
    }
  }

  /** From `s` to `t` the running children are left to themselves until the one timer, due in thirty seconds. */
  ghost predicate GivesGrace(s: State, t: State) {
      && t.running == s.running && t.forceKillTimer.Some?
      && t.timers == map[t.forceKillTimer.value := ForceKill(s.clock + 30000)]
      && t.restartTimers == {}
  }

  /** The first signal gives the running children thirty seconds: the one timer left is due then and kills them. */
  lemma GraceIsThirtySeconds(slots: seq<Slot>, events: seq<Event>)
    requires Distinct(slots) && IsRun(slots, events)
    requires !After(slots, events).stopping && After(slots, events).running != map[]
    ensures GivesGrace(After(slots, events), Next(After(slots, events), Signal))
  {
    AlwaysInvariant(slots, events);
    hide Invariant, IsRun, After, ShutDown, ChildExited, TimerFired, GivesGrace;
    GraceFrom(slots, After(slots, events));
  }

  lemma GraceFrom(slots: seq<Slot>, s: State)
    requires Invariant(slots, s) && !s.stopping && s.running != map[]
    ensures GivesGrace(s, ShutDown(s))
  {
    NoOtherTimer(slots, s);
    SomeChild(slots, s);
    hide ChildId, ChildPids, Invariant, Finished, ShutDown;
    ShutDownIs(s);
    FinishedWaits(Stopping(s));
    assert s.timers - s.restartTimers == map[];
  }

  lemma SomeChild(slots: seq<Slot>, s: State)
    requires Invariant(slots, s) && s.running != map[]
    ensures |s.children| > 0
  {
    hide ChildId;
    var p :| p in s.running;
    assert ChildId(s.running[p].slot) in s.children;
    NoneLeft(s.children);
  }

  lemma FinishedWaits(s: State)
    requires |s.children| > 0
    ensures Finished(s) == s
  {
  }

  /** Before shutdown every timer is a pending restart. */
  lemma NoOtherTimer(slots: seq<Slot>, s: State)
    requires Invariant(slots, s) && !s.stopping
    ensures s.timers.Keys == s.restartTimers
  {
    hide ChildId;
    assert forall h :: h in s.timers ==> s.timers[h].Restart? || s.timers[h].ForceKill?;
  }
}
