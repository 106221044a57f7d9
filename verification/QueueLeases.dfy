/**
 * The deployment-wide cap on executing backtests: when it holds in a run, and when it does not.
 *
 * A heartbeat renews the lease of whoever still owns the claim, without asking whether the lease had run out. One
 * that arrives after its slot was given away therefore brings a lapsed lease back to life.
 */
module QueueLeases {
  import opened Wrappers
  import opened Collections
  import opened Limits
  import opened LockQueues
  import opened BacktestQueue
  import opened QueueLocks
  import opened QueueCapacity

  /** A claim that has found a slot free and has not committed yet. */
  predicate HoldsSlot(t: Tx) {
    t.program.Claim? && (t.stage.SlotFree? || t.stage.Considering? || t.stage.Owning? || t.stage.Taking?)
  }

  /** Claims read the clock before they start. */
  ghost predicate ClocksBehind(s: State) {
    forall tx :: tx in s.txs && s.txs[tx].program.Claim? ==> s.txs[tx].program.now <= s.clock
  }

  function PromisedSlots(s: State): nat { if exists tx :: tx in s.txs && HoldsSlot(s.txs[tx]) then 1 else 0 }

  /** Live leases, and the slot promised to a claim under way. */
  function Load(s: State): nat { |Executing(s, s.clock)| + PromisedSlots(s) }

  /** The claims past their count hold the admission lock, so there is at most one. */
  lemma SlotHolderIsOne(d: Deployment, s: State, tx: TxId, other: TxId)
    requires LockTable(d, s) && tx in s.txs && other in s.txs && HoldsSlot(s.txs[tx])
    requires HoldsSlot(s.txs[other]) || Holds(s.locks, other, Admission)
    ensures tx == other
  {
    assert LocksAre(d, s, tx) && LocksAre(d, s, other);
    assert Admission in LocksOf(d, s.txs[tx]);
    assert HoldsSlot(s.txs[other]) ==> Admission in LocksOf(d, s.txs[other]);
    assert Holds(s.locks, tx, Admission);
  }

  /** The heartbeat brings a lease that had run out back to life. */
  predicate Revives(s: State, e: Step) {
    && e.Heartbeat? && e.run in s.runs && s.runs[e.run].job.Claimed?
    && s.runs[e.run].job.lease <= s.clock < e.now + e.leaseMs
  }

  // ---- What each step does to the load --------------------------------------------------------

  lemma FewerExecuting(s: State, t: State)
    requires forall r :: r in Executing(t, t.clock) ==> r in Executing(s, s.clock)
    ensures |Executing(t, t.clock)| <= |Executing(s, s.clock)|
  {
    SubsetSize(Executing(t, t.clock), Executing(s, s.clock));
  }

  lemma PromiseFrom(s: State, t: State)
    requires forall x :: x in t.txs && HoldsSlot(t.txs[x]) ==> x in s.txs && HoldsSlot(s.txs[x])
    ensures PromisedSlots(t) <= PromisedSlots(s)
  {
    hide HoldsSlot;
    if tx :| tx in t.txs && HoldsSlot(t.txs[tx]) { assert tx in s.txs && HoldsSlot(s.txs[tx]); }
  }

  /** Statements on a job, and time: only a revival adds to the load. */
  lemma StatementLoad(d: Deployment, s: State, e: Step)
    requires Enabled(d, s, e) && (IsStatement(e) || e.Tick?)
    ensures !Revives(s, e) ==> Load(Next(d, s, e)) <= Load(s)
    ensures Revives(s, e) ==> Load(Next(d, s, e)) == Load(s) + 1
  {
    var t := Next(d, s, e);
    StatementPromise(d, s, e);
    if Revives(s, e) {
      RevivalExecuting(d, s, e);
      hide Next, Enabled, Executing, PromisedSlots, Revives;
    } else {
      StatementExecuting(d, s, e);
      FewerExecuting(s, t);
      hide Next, Enabled, Executing, PromisedSlots, Revives;
    }
  }

  lemma StatementPromise(d: Deployment, s: State, e: Step)
    requires Enabled(d, s, e) && (IsStatement(e) || e.Tick?)
    ensures PromisedSlots(Next(d, s, e)) == PromisedSlots(s)
  {
    hide HoldsSlot, RowFree;
    assert Next(d, s, e).txs == s.txs;
  }

  lemma RevivalExecuting(d: Deployment, s: State, e: Step)
    requires Enabled(d, s, e) && Revives(s, e)
    ensures var t := Next(d, s, e);
      Executing(t, t.clock) == Executing(s, s.clock) + {e.run} && e.run !in Executing(s, s.clock)
  {
  }

  lemma StatementExecuting(d: Deployment, s: State, e: Step)
    requires Enabled(d, s, e) && (IsStatement(e) || e.Tick?) && !Revives(s, e)
    ensures var t := Next(d, s, e); forall r :: r in Executing(t, t.clock) ==> r in Executing(s, s.clock)
  {
    hide RowFree;
  }

  /** Counting the slots: the claim goes on only if its slot fits. */
  lemma CountLoad(d: Deployment, s: State, tx: TxId, cap: nat)
    requires LockTable(d, s) && ClocksBehind(s) && d.globalMaxRunning == Some(cap) && Enabled(d, s, CountExecuting(tx))
    requires Load(s) <= cap
    ensures Load(Next(d, s, CountExecuting(tx))) <= cap
  {
    var t := Next(d, s, CountExecuting(tx));
    var now := s.txs[tx].program.now;
    assert Executing(s, s.clock) <= Executing(s, now);
    SubsetSize(Executing(s, s.clock), Executing(s, now));
    assert t.runs == s.runs && t.clock == s.clock;
    assert Executing(t, t.clock) == Executing(s, s.clock);
    if tx !in t.txs { EndedPromise(s, tx); }
  }

  lemma EndedPromise(s: State, tx: TxId)
    ensures PromisedSlots(Ended(s, tx)) <= PromisedSlots(s)
  {
    hide HoldsSlot, Released;
    PromiseFrom(s, Ended(s, tx));
  }

  /** A claim's commit turns the promised slot into a lease. */
  lemma ClaimCommitLoad(d: Deployment, s: State, tx: TxId)
    requires LockTable(d, s) && Enabled(d, s, Commit(tx)) && s.txs[tx].program.Claim?
    ensures Load(Next(d, s, Commit(tx))) <= Load(s)
  {
    var t := Next(d, s, Commit(tx));
    PublishedLocks(s, tx);
    assert HoldsSlot(s.txs[tx]);
    forall x | x in t.txs ensures !HoldsSlot(t.txs[x]) {
      if HoldsSlot(s.txs[x]) { SlotHolderIsOne(d, s, tx, x); }
    }
    assert PromisedSlots(s) == 1 && PromisedSlots(t) == 0;
    hide HoldsSlot, LockTable, PromisedSlots, Released;
    var run := s.txs[tx].stage.candidate.run;
    assert Executing(t, t.clock) <= Executing(s, s.clock) + {run};
    SubsetSize(Executing(t, t.clock), Executing(s, s.clock) + {run});
  }

  /** Other commits start nothing. */
  lemma OtherCommitLoad(d: Deployment, s: State, tx: TxId)
    requires FreshRun(s) && Enabled(d, s, Commit(tx)) && !s.txs[tx].program.Claim?
    ensures Load(Next(d, s, Commit(tx))) <= Load(s)
  {
    var t := Next(d, s, Commit(tx));
    PublishedLocks(s, tx);
    hide HoldsSlot, Released, PromisedSlots;
    PromiseFrom(s, t);
    FewerExecuting(s, t);
  }

  /** The remaining steps publish nothing and let no claim past the count. */
  lemma OtherLoad(d: Deployment, s: State, e: Step)
    requires Enabled(d, s, e) && !e.Commit? && !e.Tick? && !IsStatement(e) && !e.CountExecuting?
    ensures Load(Next(d, s, e)) <= Load(s)
  {
    var t := Next(d, s, e);
    OnlyCommitPublishes(d, s, e);
    SlotsStay(d, s, e);
    hide Next, HoldsSlot, Enabled, PromisedSlots;
    PromiseFrom(s, t);
    FewerExecuting(s, t);
  }

  lemma SlotsStay(d: Deployment, s: State, e: Step)
    requires Enabled(d, s, e) && !e.Commit? && !e.Tick? && !IsStatement(e) && !e.CountExecuting?
    ensures forall x :: x in Next(d, s, e).txs && HoldsSlot(Next(d, s, e).txs[x]) ==> x in s.txs && HoldsSlot(s.txs[x])
  {
    hide InFlight, Executing, ArePeeked, Holds, Requested, Released, WithinLimit, PlanOf, OwnerScope, NextNumber, RowFree,
      OwnerTried, OwnerDecided, Considered;
    if e.Peek? || e.TryOwner? || e.DecideOwner? { ConsideringGoesOn(d, s, e); }
  }

  /** One step: a load within the cap stays within it, unless a lapsed lease is revived when every slot is taken. */
  lemma NextLoad(d: Deployment, s: State, e: Step, cap: nat)
    requires LockTable(d, s) && ClocksBehind(s) && FreshRun(s) && d.globalMaxRunning == Some(cap) && Enabled(d, s, e)
    requires Load(s) <= cap
    ensures Load(Next(d, s, e)) <= cap <==> !(Revives(s, e) && Load(s) == cap)
  {
    assert e.Commit? ==> e.tx in s.txs;
    hide Load, LockTable, ClocksBehind, FreshRun, Next, Enabled;
    if e.CountExecuting? { CountLoad(d, s, e.tx, cap); }
    else if e.Commit? {
      if s.txs[e.tx].program.Claim? { ClaimCommitLoad(d, s, e.tx); } else { OtherCommitLoad(d, s, e.tx); }
    }
    else if IsStatement(e) || e.Tick? { StatementLoad(d, s, e); }
    else { OtherLoad(d, s, e); }
  }

  // ---- The cap, over whole runs ---------------------------------------------------------------

  lemma CommitClocks(d: Deployment, s: State, tx: TxId)
    requires ClocksBehind(s) && Enabled(d, s, Commit(tx))
    ensures ClocksBehind(Next(d, s, Commit(tx)))
  {
    PublishedLocks(s, tx);
    assert Published(s, tx).clock == s.clock;
    hide Published, Released, Committable;
  }

  lemma NextClocks(d: Deployment, s: State, e: Step)
    requires ClocksBehind(s) && Enabled(d, s, e)
    ensures ClocksBehind(Next(d, s, e))
  {
    if e.Commit? {
      CommitClocks(d, s, e.tx);
    } else if e.Peek? || e.TryOwner? || e.DecideOwner? {
      ConsideringGoesOn(d, s, e);
      hide Next;
    } else if IsStatement(e) || e.Tick? {
      StatementClocks(d, s, e);
      hide Next;
    } else {
      TransactionClocks(d, s, e);
      hide Next;
    }
  }

  lemma StatementClocks(d: Deployment, s: State, e: Step)
    requires Enabled(d, s, e) && (IsStatement(e) || e.Tick?)
    ensures Next(d, s, e).txs == s.txs && Next(d, s, e).clock >= s.clock
  {
    hide RowFree;
  }

  lemma TransactionClocks(d: Deployment, s: State, e: Step)
    requires ClocksBehind(s) && Enabled(d, s, e)
    requires !e.Commit? && !e.Tick? && !IsStatement(e) && !e.Peek? && !e.TryOwner? && !e.DecideOwner?
    ensures ClocksBehind(Next(d, s, e))
  {
    hide InFlight, Executing, Holds, Requested, Released, WithinLimit, PlanOf, OwnerScope, NextNumber;
  }

  lemma {:induction false} AlwaysClocks(d: Deployment, plans: map<UserId, Limit>, steps: seq<Step>)
    requires IsRun(d, plans, steps)
    ensures ClocksBehind(After(d, plans, steps))
    decreases |steps|
  {
    if steps != [] {
      AlwaysClocks(d, plans, steps[..|steps| - 1]);
      hide ClocksBehind, Next;
      NextClocks(d, After(d, plans, steps[..|steps| - 1]), steps[|steps| - 1]);
    }
  }

  /** The cap holds at every point of a run, counting a slot that has been promised. */
  ghost predicate CapKept(d: Deployment, plans: map<UserId, Limit>, steps: seq<Step>, cap: nat)
    requires IsRun(d, plans, steps)
    decreases |steps|
  {
    Load(After(d, plans, steps)) <= cap && (steps == [] || CapKept(d, plans, steps[..|steps| - 1], cap))
  }

  /** No heartbeat of the run revives a lapsed lease while every slot is taken. */
  ghost predicate NoFullRevival(d: Deployment, plans: map<UserId, Limit>, steps: seq<Step>, cap: nat)
    requires IsRun(d, plans, steps)
    decreases |steps|
  {
    steps == [] ||
    var s := After(d, plans, steps[..|steps| - 1]);
    !(Revives(s, steps[|steps| - 1]) && Load(s) == cap) && NoFullRevival(d, plans, steps[..|steps| - 1], cap)
  }

  /** The cap holds throughout a run exactly when no heartbeat revives a lapsed lease at a full deployment. */
  lemma {:induction false} CapHolds(d: Deployment, plans: map<UserId, Limit>, steps: seq<Step>, cap: nat)
    requires IsRun(d, plans, steps) && d.globalMaxRunning == Some(cap)
    ensures CapKept(d, plans, steps, cap) <==> NoFullRevival(d, plans, steps, cap)
    decreases |steps|
  {
    if steps == [] {
      assert Executing(Initial(plans), 0) == {};
    } else {
      var before, e := steps[..|steps| - 1], steps[|steps| - 1];
      CapHolds(d, plans, before, cap);
      AlwaysLockTable(d, plans, before);
      AlwaysClocks(d, plans, before);
      AlwaysPromises(d, plans, before);
      hide Load, Revives, LockTable, ClocksBehind, Promises, FreshRun, Next;
      if CapKept(d, plans, before, cap) { NextLoad(d, After(d, plans, before), e, cap); }
    }
  }

  /** If heartbeats renew live leases only, no more claims than the cap ever hold a live lease. */
  lemma {:induction false} LiveHeartbeatsKeepCap(d: Deployment, plans: map<UserId, Limit>, steps: seq<Step>, cap: nat)
    requires IsRun(d, plans, steps) && d.globalMaxRunning == Some(cap)
    requires forall i :: 0 <= i < |steps| ==> IsRun(d, plans, steps[..i]) && !Revives(After(d, plans, steps[..i]), steps[i])
    ensures |Executing(After(d, plans, steps), After(d, plans, steps).clock)| <= cap
  {
    NeverRevived(d, plans, steps, cap);
    CapHolds(d, plans, steps, cap);
  }

  lemma {:induction false} NeverRevived(d: Deployment, plans: map<UserId, Limit>, steps: seq<Step>, cap: nat)
    requires IsRun(d, plans, steps)
    requires forall i :: 0 <= i < |steps| ==> IsRun(d, plans, steps[..i]) && !Revives(After(d, plans, steps[..i]), steps[i])
    ensures NoFullRevival(d, plans, steps, cap)
    decreases |steps|
  {
    if steps != [] {
      hide Revives, Next, Load;
      var before := steps[..|steps| - 1];
      forall i | 0 <= i < |before| ensures IsRun(d, plans, before[..i]) && !Revives(After(d, plans, before[..i]), before[i]) {
        assert before[..i] == steps[..i];
      }
      NeverRevived(d, plans, before, cap);
      assert !Revives(After(d, plans, steps[..|steps| - 1]), steps[|steps| - 1]);
    }
  }
}
