/** How long a slot waits between children, read off its history in a run of the supervisor. */
module SupervisorBackoff {
  import opened Arithmetic
  import opened Collections
  import opened Wrappers
  import opened Supervisor
  import opened SupervisorRuns

  /** One child of a slot, from when it was spawned to when it exited. */
  datatype Life = Life(started: nat, exited: Option<nat>)

  predicate Healthy(life: Life)
    requires life.exited.Some?
  {
    life.exited.value - life.started >= 60000
  }

  /** The children a slot has had in a run, in order. */
  ghost function Lives(slots: seq<Slot>, events: seq<Event>, slot: Slot): seq<Life>
    requires IsRun(slots, events)
    decreases |events|
  {
    if events == [] then if slot in slots then [Life(0, None)] else []
    else
      Updated(After(slots, events[..|events| - 1]), slot, Lives(slots, events[..|events| - 1], slot), events[|events| - 1])
  }

  /** The exit of a slot's child ends its life; a restart timer of the slot that fires begins another. */
  ghost function Updated(s: State, slot: Slot, lives: seq<Life>, e: Event): seq<Life>
    requires Enabled(s, e)
  {
    match e
    case Exit(pid) =>
      if s.running[pid].slot != slot || lives == [] then lives
      else lives[..|lives| - 1] + [Life(lives[|lives| - 1].started, Some(s.clock))]
    case Fire(h) => if Pending(s, slot, h) then lives + [Life(s.clock, None)] else lives
    case _ => lives
  }

  ghost predicate AllExited(lives: seq<Life>) { forall i :: 0 <= i < |lives| ==> lives[i].exited.Some? }

  /** How many children in a row have exited at the end of a history, back to the last one that had run healthily. */
  ghost function Streak(lives: seq<Life>): nat
    requires AllExited(lives)
  {
    if lives == [] then 0
    else if Healthy(lives[|lives| - 1]) then 1
    else Streak(lives[..|lives| - 1]) + 1
  }

  /** Child `i` was spawned no earlier than the backoff for the streak before it allows. */
  ghost predicate SpacedAt(lives: seq<Life>, i: nat)
    requires 0 < i < |lives|
  {
    && AllExited(lives[..i])
    && Streak(lives[..i]) > 0
    && lives[i].started >= lives[i - 1].exited.value + Delay(Streak(lives[..i]))
  }

  ghost predicate Spaced(lives: seq<Life>) {
    && (forall i :: 0 < i < |lives| ==> SpacedAt(lives, i))
    && (forall i :: 0 <= i < |lives| && lives[i].exited.Some? ==> lives[i].started <= lives[i].exited.value)
  }

  /** What the state of a run holds of a slot's history. */
  ghost predicate Recorded(s: State, slot: Slot, lives: seq<Life>) {
    && lives != []
    && var last := lives[|lives| - 1];
    && AllExited(lives[..|lives| - 1])
    && (ChildId(slot) in s.children ==>
      && last.exited.None?
      && s.children[ChildId(slot)].startedAt == last.started
      && s.children[ChildId(slot)].failures == Streak(lives[..|lives| - 1]))
    && (ChildId(slot) !in s.children ==> last.exited.Some?)
    && (forall h :: Pending(s, slot, h) ==>
      && AllExited(lives)
      && s.timers[h].failures == Streak(lives)
      && s.timers[h].due == last.exited.value + Delay(Streak(lives)))
  }

  lemma StreakGrows(lives: seq<Life>)
    requires AllExited(lives) && lives != []
    ensures Streak(lives) > 0
  {
  }

  /** The child of the slot exits. */
  lemma ExitRecorded(slots: seq<Slot>, s: State, slot: Slot, lives: seq<Life>, pid: Pid)
    requires Invariant(slots, s) && !s.stopping && pid in s.running && s.running[pid].slot == slot && slot in slots
    requires Recorded(s, slot, lives)
    ensures Recorded(ChildExited(s, pid), slot, lives[..|lives| - 1] + [Life(lives[|lives| - 1].started, Some(s.clock))])
  {
    hide ChildId, Delay;
    assert Served(s, slot);
    var rest, last := lives[..|lives| - 1], Life(lives[|lives| - 1].started, Some(s.clock));
    var next := rest + [last];
    assert next[..|next| - 1] == rest;
    assert Streak(next) == (if Healthy(last) then 0 else s.running[pid].failures) + 1;
  }

  /** A restart timer of the slot fires. */
  lemma FireRecorded(slots: seq<Slot>, s: State, slot: Slot, lives: seq<Life>, h: Handle)
    requires Invariant(slots, s) && !s.stopping && Pending(s, slot, h) && slot in slots
    requires Recorded(s, slot, lives)
    ensures Recorded(TimerFired(s, h), slot, lives + [Life(s.clock, None)])
  {
    hide ChildId, Delay;
    assert Served(s, slot);
    var next := lives + [Life(s.clock, None)];
    assert next[..|next| - 1] == lives;
    assert forall g :: Pending(TimerFired(s, h), slot, g) ==> Pending(s, slot, g) && g != h;
  }

  /** A history stays on record while the slot's child and pending restart stay. */
  lemma StaysRecorded(s: State, t: State, slot: Slot, lives: seq<Life>)
    requires Recorded(s, slot, lives)
    requires ChildId(slot) in t.children <==> ChildId(slot) in s.children
    requires ChildId(slot) in s.children ==> t.children[ChildId(slot)] == s.children[ChildId(slot)]
    requires forall h :: Pending(t, slot, h) ==> Pending(s, slot, h) && t.timers[h] == s.timers[h]
    ensures Recorded(t, slot, lives)
  {
    hide ChildId, Delay, Streak;
  }

  lemma OtherExit(s: State, slot: Slot, lives: seq<Life>, pid: Pid)
    requires Fresh(s) && pid in s.running && s.running[pid].slot != slot && !s.stopping && Recorded(s, slot, lives)
    ensures Recorded(ChildExited(s, pid), slot, lives)
  {
    if ChildId(s.running[pid].slot) == ChildId(slot) { ChildIdDetermines(s.running[pid].slot, slot); }
    hide ChildId, Delay, Recorded, RanFor;
    StaysRecorded(s, ChildExited(s, pid), slot, lives);
  }

  lemma OtherFire(s: State, slot: Slot, lives: seq<Life>, h: Handle)
    requires h in s.timers && !Pending(s, slot, h) && !s.stopping && Recorded(s, slot, lives)
    ensures Recorded(TimerFired(s, h), slot, lives)
  {
    if s.timers[h].Restart? && ChildId(s.timers[h].slot) == ChildId(slot) {
      ChildIdDetermines(s.timers[h].slot, slot);
    }
    hide ChildId, Delay, Recorded, ChildPids;
    StaysRecorded(s, TimerFired(s, h), slot, lives);
  }

  /** Anything else leaves the slot as it was. */
  lemma OtherRecorded(s: State, slot: Slot, lives: seq<Life>, e: Event)
    requires Fresh(s) && Enabled(s, e) && Recorded(s, slot, lives)
    requires e.Exit? ==> s.running[e.pid].slot != slot
    requires e.Fire? ==> !Pending(s, slot, e.timer)
    requires !Next(s, e).stopping && !s.stopping
    ensures Recorded(Next(s, e), slot, lives)
  {
    hide ChildExited, TimerFired, Recorded;
    match e
    case Exit(pid) => OtherExit(s, slot, lives, pid);
    case Fire(h) => OtherFire(s, slot, lives, h);
    case Signal =>
    case Error(_) =>
    case Pass(_) => StaysRecorded(s, Next(s, e), slot, lives);
  }

  lemma SpacedPrefix(lives: seq<Life>, next: seq<Life>, i: nat)
    requires 0 < i < |lives| && 0 < i < |next| && SpacedAt(lives, i)
    requires next[..i] == lives[..i] && next[i].started == lives[i].started
    ensures SpacedAt(next, i)
  {
    assert next[i - 1] == next[..i][i - 1] && lives[i - 1] == lives[..i][i - 1];
  }

  lemma SpacedExit(lives: seq<Life>, exited: nat)
    requires lives != [] && Spaced(lives) && lives[|lives| - 1].started <= exited
    ensures Spaced(lives[..|lives| - 1] + [Life(lives[|lives| - 1].started, Some(exited))])
  {
    hide SpacedAt;
    var next := lives[..|lives| - 1] + [Life(lives[|lives| - 1].started, Some(exited))];
    forall i | 0 < i < |next| ensures SpacedAt(next, i) {
      assert next[..i] == lives[..i];
      SpacedPrefix(lives, next, i);
    }
  }

  lemma SpacedSpawn(lives: seq<Life>, started: nat)
    requires lives != [] && Spaced(lives) && AllExited(lives) && Streak(lives) > 0
    requires started >= lives[|lives| - 1].exited.value + Delay(Streak(lives))
    ensures Spaced(lives + [Life(started, None)])
  {
    var next := lives + [Life(started, None)];
    assert next[..|lives|] == lives;
    assert SpacedAt(next, |lives|);
    hide SpacedAt, AllExited;
    forall i | 0 < i < |lives| ensures SpacedAt(next, i) {
      assert next[..i] == lives[..i];
      SpacedPrefix(lives, next, i);
    }
  }

  lemma StartRecorded(slots: seq<Slot>, slot: Slot)
    requires Distinct(slots) && slot in slots
    ensures Recorded(Started(slots), slot, [Life(0, None)])
  {
    StartedIs(slots);
    StartChildren(slots);
    hide ChildId, Tracked;
    assert [Life(0, None)][..0] == [];
  }

  lemma {:induction false} StartChildren(slots: seq<Slot>)
    ensures forall id :: id in Started(slots).children ==>
      Started(slots).children[id].startedAt == 0 && Started(slots).children[id].failures == 0
  {
    hide ChildId;
    if slots != [] {
      StartedClock(slots[..|slots| - 1]);
      StartChildren(slots[..|slots| - 1]);
    }
  }

  lemma {:induction false} StartedClock(slots: seq<Slot>)
    ensures Started(slots).clock == 0
  {
    if slots != [] { StartedClock(slots[..|slots| - 1]); }
  }

  lemma PendingRecorded(slots: seq<Slot>, s: State, slot: Slot, lives: seq<Life>, h: Handle)
    requires Invariant(slots, s) && Pending(s, slot, h)
    requires !s.stopping ==> Recorded(s, slot, lives)
    ensures !s.stopping && lives != [] && AllExited(lives) && Streak(lives) > 0
    ensures s.timers[h].due == lives[|lives| - 1].exited.value + Delay(Streak(lives))
  {
    hide ChildId, Delay, Tracked, Fresh, OnlySlots, StoppedOnce;
    StreakGrows(lives);
  }

  lemma UpdatedSpaced(slots: seq<Slot>, s: State, slot: Slot, lives: seq<Life>, e: Event)
    requires Invariant(slots, s) && Enabled(s, e)
    requires lives != [] && Spaced(lives) && lives[|lives| - 1].started <= s.clock
    requires !s.stopping ==> Recorded(s, slot, lives)
    ensures var next := Updated(s, slot, lives, e);
      next != [] && Spaced(next) && next[|next| - 1].started <= s.clock
  {
    hide Invariant, Recorded, Spaced;
    if e.Exit? && s.running[e.pid].slot == slot {
      SpacedExit(lives, s.clock);
    } else if e.Fire? && Pending(s, slot, e.timer) {
      PendingRecorded(slots, s, slot, lives, e.timer);
      SpacedSpawn(lives, s.clock);
    }
  }

  lemma UpdatedRecorded(slots: seq<Slot>, s: State, slot: Slot, lives: seq<Life>, e: Event)
    requires Invariant(slots, s) && Enabled(s, e) && slot in slots && lives != [] && !s.stopping
    requires Recorded(s, slot, lives) && !Next(s, e).stopping
    ensures Recorded(Next(s, e), slot, Updated(s, slot, lives, e))
  {
    assert Fresh(s);
    hide Invariant, Recorded, ChildExited, TimerFired, ShutDown;
    if e.Exit? && s.running[e.pid].slot == slot {
      ExitRecorded(slots, s, slot, lives, e.pid);
    } else if e.Fire? && Pending(s, slot, e.timer) {
      FireRecorded(slots, s, slot, lives, e.timer);
    } else {
      OtherRecorded(s, slot, lives, e);
    }
  }

  lemma ClockGoesOn(s: State, e: Event)
    requires Enabled(s, e)
    ensures Next(s, e).clock >= s.clock
  {
    hide ChildId, Delay, ChildPids, RanFor;
  }

  /** In every run the state agrees with each slot's history until shutdown, and every history is spaced. */
  lemma {:induction false} HistoryRecorded(slots: seq<Slot>, events: seq<Event>, slot: Slot)
    requires Distinct(slots) && IsRun(slots, events) && slot in slots
    ensures Lives(slots, events, slot) != [] && Spaced(Lives(slots, events, slot))
    ensures Lives(slots, events, slot)[|Lives(slots, events, slot)| - 1].started <= After(slots, events).clock
    ensures !After(slots, events).stopping ==> Recorded(After(slots, events), slot, Lives(slots, events, slot))
    decreases |events|
  {
    if events == [] {
      StartRecorded(slots, slot);
      StartedClock(slots);
    } else {
      var before, e := events[..|events| - 1], events[|events| - 1];
      hide Invariant, Recorded, Spaced, Updated, Next, Enabled;
      HistoryRecorded(slots, before, slot);
      AlwaysInvariant(slots, before);
      HistoryGoesOn(slots, After(slots, before), slot, Lives(slots, before, slot), e);
    }
  }

  ghost predicate HistoryOf(s: State, slot: Slot, lives: seq<Life>) {
    lives != [] && Spaced(lives) && lives[|lives| - 1].started <= s.clock && (!s.stopping ==> Recorded(s, slot, lives))
  }

  lemma HistoryGoesOn(slots: seq<Slot>, s: State, slot: Slot, lives: seq<Life>, e: Event)
    requires Invariant(slots, s) && Enabled(s, e) && slot in slots && HistoryOf(s, slot, lives)
    ensures HistoryOf(Next(s, e), slot, Updated(s, slot, lives, e))
  {
    hide Invariant, Recorded, Spaced, Updated, Next, Enabled;
    ClockGoesOn(s, e);
    UpdatedSpaced(slots, s, slot, lives, e);
    if s.stopping {
      NextAfterShutdown(slots, s, e);
    } else if !Next(s, e).stopping {
      UpdatedRecorded(slots, s, slot, lives, e);
    }
  }

  // ---- What the waits are ---------------------------------------------------------------------

  /** The waits after the first five exits in a row double from one second; every later wait is thirty seconds. */
  lemma DelaysAre(failures: nat)
    requires failures > 0
    ensures Delay(failures) == if failures <= 5 then [1000, 2000, 4000, 8000, 16000][failures - 1] else 30000
  {
    assert Pow2(0) == 1 && Pow2(1) == 2 && Pow2(2) == 4;
    assert Pow2(3) == 8 && Pow2(4) == 16;
    if failures > 5 {
      assert Pow2(5) == 32;
      DelayGrows(6, failures);
    }
  }

  /** A pending restart waits exactly the backoff for the streak of exits that led to it. */
  lemma WaitIsExact(slots: seq<Slot>, events: seq<Event>, slot: Slot, h: Handle)
    requires Distinct(slots) && IsRun(slots, events) && slot in slots
    requires Pending(After(slots, events), slot, h)
    ensures var lives := Lives(slots, events, slot);
      && lives != [] && AllExited(lives) && Streak(lives) > 0
      && After(slots, events).timers[h].due - lives[|lives| - 1].exited.value
         == (if Streak(lives) <= 5 then [1000, 2000, 4000, 8000, 16000][Streak(lives) - 1] else 30000)
  {
    AlwaysInvariant(slots, events);
    HistoryRecorded(slots, events, slot);
    assert !After(slots, events).stopping;
    var lives := Lives(slots, events, slot);
    StreakGrows(lives);
    hide Lives, Invariant, IsRun, After, Streak, Delay;
    DelaysAre(Streak(lives));
  }

  ghost predicate ShortLived(lives: seq<Life>, from: nat, n: nat)
    requires from + n <= |lives|
  {
    forall i :: from <= i < from + n ==> lives[i].exited.Some? && !Healthy(lives[i])
  }

  lemma {:induction false} StreakOfShort(lives: seq<Life>, from: nat, n: nat)
    requires from + n <= |lives| && AllExited(lives[..from + n]) && ShortLived(lives, from, n)
    ensures AllExited(lives[..from])
    ensures Streak(lives[..from + n]) == Streak(lives[..from]) + n
  {
    assert forall i :: 0 <= i < from ==> lives[..from][i] == lives[..from + n][i];
    if n > 0 {
      var upTo := lives[..from + n];
      assert upTo[..|upTo| - 1] == lives[..from + n - 1];
      StreakOfShort(lives, from, n - 1);
    }
  }

  /** The least total of `n` waits in a row. */
  function TotalDelay(n: nat): nat { if n == 0 then 0 else TotalDelay(n - 1) + Delay(n) }

  lemma {:induction false} DelayGrows(m: nat, n: nat)
    requires 0 < m <= n
    ensures Delay(m) <= Delay(n)
    decreases n
  {
    if m < n { DelayGrows(m, n - 1); }
  }

  /** The first five waits are 1, 2, 4, 8 and 16 seconds; every later one is 30 seconds. */
  lemma {:induction false} TotalDelayIs(n: nat)
    requires n >= 5
    ensures TotalDelay(n) == 31000 + 30000 * (n - 5)
  {
    if n == 5 {
      assert Pow2(4) == 16 && Pow2(3) == 8;
      assert TotalDelay(3) == 7000;
    } else {
      TotalDelayIs(n - 1);
      assert Pow2(5) == 32 by { assert Pow2(4) == 16; }
      assert Delay(6) == 30000;
      DelayGrows(6, n);
    }
  }

  lemma {:induction false} ShortRestartsWait(lives: seq<Life>, from: nat, n: nat)
    requires 0 < n && from + n < |lives| && Spaced(lives) && ShortLived(lives, from, n)
    ensures lives[from].exited.Some?
    ensures lives[from + n].started >= lives[from].exited.value + TotalDelay(n)
    decreases n
  {
    var last := from + n;
    assert SpacedAt(lives, last);
    StreakOfShort(lives, from, n);
    DelayGrows(n, Streak(lives[..last]));
    if n > 1 {
      ShortRestartsWait(lives, from, n - 1);
      assert lives[last - 1].exited.value >= lives[last - 1].started;
    }
  }

  /** In any run, `n` short-lived children of a slot in a row, each restarted, take at least this long. */
  lemma ShortRestartsTake(slots: seq<Slot>, events: seq<Event>, slot: Slot, from: nat, n: nat)
    requires Distinct(slots) && IsRun(slots, events) && slot in slots
    requires n >= 5 && from + n < |Lives(slots, events, slot)|
    requires ShortLived(Lives(slots, events, slot), from, n)
    ensures var lives := Lives(slots, events, slot);
      lives[from + n].started >= lives[from].exited.value + 31000 + 30000 * (n - 5)
  {
    hide ShortLived, Spaced, Lives;
    HistoryRecorded(slots, events, slot);
    ShortRestartsWait(Lives(slots, events, slot), from, n);
    TotalDelayIs(n);
  }
}
