/** The worker supervisor of `apps/worker/src/index.ts`, as a machine over what its event loop delivers. */
module Supervisor {
  import opened Arithmetic
  import opened Wrappers
  import opened JsText
  import opened DecimalText

  const RESTART_BASE_DELAY_MS := 1000
  const RESTART_MAX_DELAY_MS := 30000
  const HEALTHY_RUNTIME_MS := 60000
  const SHUTDOWN_GRACE_MS := 30000

  type Pid = nat
  type Handle = nat

  /** A child kind and the ordinal of one of its processes. */
  datatype Slot = Slot(kind: Text, index: nat)

  /** What the supervisor records of a child. */
  datatype Supervised = Supervised(slot: Slot, pid: Pid, startedAt: nat, failures: nat)

  /** What a running child's exit handler has captured. */
  datatype Handler = Handler(slot: Slot, failures: nat)

  datatype Timeout =
    | Restart(due: nat, slot: Slot, failures: nat)
    | ForceKill(due: nat)

  /**
   * The supervisor's variables (`children` to `stopping`), with the counter of the stopped action, and the
   * world it acts on: running processes, timers still to fire, signals sent and the clock.
   */
  datatype State = State(
    children: map<Text, Supervised>,
    restartTimers: set<Handle>,
    forceKillTimer: Option<Handle>,
    keepAlive: bool,
    stopping: bool,
    stopped: nat,
    running: map<Pid, Handler>,
    timers: map<Handle, Timeout>,
    terminated: set<Pid>,
    killed: set<Pid>,
    clock: nat,
    nextPid: Pid,
    nextHandle: Handle)

  /** `childId`. */
  function ChildId(slot: Slot): Text { slot.kind + Ascii("-") + Decimal(slot.index) }

  /** The wait before the `failures`-th restart in a row. */
  function Delay(failures: nat): nat
    requires failures > 0
  {
    var doubled := RESTART_BASE_DELAY_MS * Pow2(failures - 1);
    if doubled < RESTART_MAX_DELAY_MS then doubled else RESTART_MAX_DELAY_MS
  }

  // ---- What each handler does to the state ----------------------------------------------------

  function Spawned(s: State, slot: Slot, failures: nat): State {
    s.(children := s.children[ChildId(slot) := Supervised(slot, s.nextPid, s.clock, failures)],
       running := s.running[s.nextPid := Handler(slot, failures)],
       nextPid := s.nextPid + 1)
  }

  function RestartScheduled(s: State, slot: Slot, previousFailures: nat): State {
    var failures := previousFailures + 1;
    s.(timers := s.timers[s.nextHandle := Restart(s.clock + Delay(failures), slot, failures)],
       restartTimers := s.restartTimers + {s.nextHandle},
       nextHandle := s.nextHandle + 1)
  }

  function Disarmed(s: State): State {
    if s.forceKillTimer.None? then s
    else s.(timers := s.timers - {s.forceKillTimer.value}, forceKillTimer := None)
  }

  function Finished(s: State): State {
    if |s.children| > 0 then s
    else Disarmed(s).(keepAlive := false, stopped := s.stopped + 1)
  }

  function RanFor(s: State, id: Text): int {
    if id in s.children then s.clock - s.children[id].startedAt else 0
  }

  function ChildExited(s: State, pid: Pid): State
    requires pid in s.running
  {
    var h := s.running[pid];
    var id := ChildId(h.slot);
    var t := s.(running := s.running - {pid}, children := s.children - {id});
    if s.stopping then Finished(t)
    else RestartScheduled(t, h.slot, if RanFor(s, id) >= HEALTHY_RUNTIME_MS then 0 else h.failures)
  }

  function ChildPids(children: map<Text, Supervised>): set<Pid> { set id | id in children :: children[id].pid }

  function TimerFired(s: State, h: Handle): State
    requires h in s.timers
  {
    var t := s.(timers := s.timers - {h});
    match s.timers[h]
    case Restart(_, slot, failures) =>
      var u := t.(restartTimers := t.restartTimers - {h});
      if u.stopping then u else Spawned(u, slot, failures)
    case ForceKill(_) => t.(killed := t.killed + ChildPids(t.children))
  }

  function ShutDown(s: State): State {
    if s.stopping then s
    else
      Finished(s.(
        stopping := true,
        timers := (s.timers - s.restartTimers)[s.nextHandle := ForceKill(s.clock + SHUTDOWN_GRACE_MS)],
        restartTimers := {},
        terminated := s.terminated + ChildPids(s.children),
        forceKillTimer := Some(s.nextHandle),
        nextHandle := s.nextHandle + 1))
  }

  const IDLE := State(map[], {}, None, true, false, 0, map[], map[], {}, {}, 0, 0, 0)

  /** The start-up loop, over the slots in the order it visits them. */
  function Started(slots: seq<Slot>): State {
    if slots == [] then IDLE else Spawned(Started(slots[..|slots| - 1]), slots[|slots| - 1], 0)
  }

  datatype Kind = Kind(name: Text, processes: nat)

  /** One slot per process of each kind. */
  function SlotsOf(kinds: seq<Kind>): seq<Slot> {
    if kinds == [] then []
    else SlotsOf(kinds[..|kinds| - 1]) + KindSlots(kinds[|kinds| - 1], kinds[|kinds| - 1].processes)
  }

  function KindSlots(kind: Kind, n: nat): seq<Slot> {
    seq(n, i requires 0 <= i < n => Slot(kind.name, i))
  }

  // ---- The supervisor itself ------------------------------------------------------------------

  lemma NoneLeft<K, V>(m: map<K, V>)
    ensures |m| > 0 <==> m != map[]
  {
    if m != map[] {
      var k :| k in m;
      assert |m.Keys| == |m.Keys - {k}| + 1;
    }
  }

  class Worker {
    var children: map<Text, Supervised>
    var restartTimers: set<Handle>
    var forceKillTimer: Option<Handle>
    var keepAlive: bool
    var stopping: bool
    var stopped: nat
    var running: map<Pid, Handler>
    var timers: map<Handle, Timeout>
    var terminated: set<Pid>
    var killed: set<Pid>
    var clock: nat
    var nextPid: Pid
    var nextHandle: Handle

    ghost function Now(): State
      reads this
    {
      State(children, restartTimers, forceKillTimer, keepAlive, stopping, stopped, running, timers,
            terminated, killed, clock, nextPid, nextHandle)
    }

    /** Module start: nothing is running, the keep-alive interval is set, then every slot is spawned. */
    constructor (kinds: seq<Kind>)
      ensures Now() == Started(SlotsOf(kinds))
    {
      children, restartTimers, forceKillTimer, keepAlive, stopping := map[], {}, None, true, false;
      stopped, running, timers, terminated, killed := 0, map[], map[], {}, {};
      clock, nextPid, nextHandle := 0, 0, 0;
      new;
      for k := 0 to |kinds|
        invariant Now() == Started(SlotsOf(kinds[..k]))
      {
        assert kinds[..k + 1][..k] == kinds[..k];
        var before := SlotsOf(kinds[..k]);
        assert SlotsOf(kinds[..k + 1]) == before + KindSlots(kinds[k], kinds[k].processes);
        assert before + KindSlots(kinds[k], 0) == before;
        for index := 0 to kinds[k].processes
          invariant Now() == Started(before + KindSlots(kinds[k], index))
        {
          var slots := before + KindSlots(kinds[k], index + 1);
          assert slots[..|slots| - 1] == before + KindSlots(kinds[k], index);
          SpawnChild(Slot(kinds[k].name, index), 0);
        }
      }
      assert kinds[..|kinds|] == kinds;
    }

    method SpawnChild(slot: Slot, failures: nat)
      modifies this
      ensures Now() == Spawned(old(Now()), slot, failures)
    {
      var pid := nextPid;
      nextPid := nextPid + 1;
      running := running[pid := Handler(slot, failures)];
      children := children[ChildId(slot) := Supervised(slot, pid, clock, failures)];
    }

    /** The `exit` handler of process `pid`. */
    method OnExit(pid: Pid)
      requires pid in running
      modifies this
      ensures Now() == ChildExited(old(Now()), pid)
    {
      hide Finished, RestartScheduled;
      var handler := running[pid];
      running := running - {pid};
      var id := ChildId(handler.slot);
      var ranForMs := if id in children then clock - children[id].startedAt else 0;
      children := children - {id};
      if stopping {
        FinishWhenAllChildrenExited();
        return;
      }
      ScheduleRestart(handler.slot, if ranForMs >= HEALTHY_RUNTIME_MS then 0 else handler.failures);
    }

    method ScheduleRestart(slot: Slot, previousFailures: nat)
      modifies this
      ensures Now() == RestartScheduled(old(Now()), slot, previousFailures)
    {
      var failures := previousFailures + 1;
      var delayMs := Delay(failures);
      var timer := nextHandle;
      nextHandle := nextHandle + 1;
      timers := timers[timer := Restart(clock + delayMs, slot, failures)];
      restartTimers := restartTimers + {timer};
    }

    /** The callback of timer `h`, which the event loop runs no earlier than it is due. */
    method OnTimer(h: Handle)
      requires h in timers
      modifies this
      ensures Now() == TimerFired(old(Now()), h)
    {
      var timeout := timers[h];
      timers := timers - {h};
      match timeout
      case Restart(_, slot, failures) =>
        restartTimers := restartTimers - {h};
        if !stopping {
          SpawnChild(slot, failures);
        }
      case ForceKill(_) =>
        var pids := SignalledPids();
        killed := killed + pids;
    }

    /** The processes reached by signalling every recorded child in turn. */
    method SignalledPids() returns (pids: set<Pid>)
      ensures pids == ChildPids(children)
    {
      pids := {};
      var left := children.Keys;
      while left != {}
        invariant left <= children.Keys
        invariant pids == set id | id in children && id !in left :: children[id].pid
        decreases |left|
      {
        var id :| id in left;
        left := left - {id};
        pids := pids + {children[id].pid};
      }
    }

    method ClearForceKillTimer()
      modifies this
      ensures Now() == Disarmed(old(Now()))
    {
      if forceKillTimer.Some? {
        timers := timers - {forceKillTimer.value};
        forceKillTimer := None;
      }
    }

    method FinishWhenAllChildrenExited()
      modifies this
      ensures Now() == Finished(old(Now()))
    {
      if |children| > 0 {
        return;
      }
      ClearForceKillTimer();
      keepAlive := false;
      stopped := stopped + 1;
    }

    method ClearRestartTimers()
      modifies this
      ensures Now() == old(Now()).(timers := old(timers) - old(restartTimers), restartTimers := {})
    {
      var left := restartTimers;
      while left != {}
        invariant left <= restartTimers
        invariant timers == old(timers) - (restartTimers - left)
        invariant Now() == old(Now()).(timers := timers)
        decreases |left|
      {
        var timer :| timer in left;
        left := left - {timer};
        timers := timers - {timer};
      }
      restartTimers := {};
    }

    method Shutdown()
      modifies this
      ensures Now() == ShutDown(old(Now()))
    {
      hide ChildPids, Finished, Disarmed;
      if stopping {
        return;
      }
      stopping := true;
      ClearRestartTimers();
      var pids := SignalledPids();
      terminated := terminated + pids;
      var timer := nextHandle;
      nextHandle := nextHandle + 1;
      timers := timers[timer := ForceKill(clock + SHUTDOWN_GRACE_MS)];
      forceKillTimer := Some(timer);
      FinishWhenAllChildrenExited();
    }
  }
}
