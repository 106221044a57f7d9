/** Which locks each transaction has asked for and holds, in every run; and that waiting never forms a cycle. */
module QueueLocks {
  import opened Wrappers
  import opened Collections
  import opened Limits
  import opened LockQueues
  import opened BacktestQueue

  /** The locks a transaction has asked for by the stage it is at. */
  function LocksOf(d: Deployment, t: Tx): set<LockId> {
    match t.program
    case Submit(user) =>
      if t.stage.OwnerLock? || t.stage.Planned? || t.stage.Admitted? then {OwnerScope(d, user)}
      else if t.stage.CounterLock? || t.stage.Numbered? then {OwnerScope(d, user), CounterRow(user)}
      else {}
    case Record(user) => if t.stage.CounterLock? || t.stage.Numbered? then {CounterRow(user)} else {}
    case ChangePlan(user, _) => if t.stage.OwnerLock? then {OwnerScope(d, user)} else {}
    case Claim(_, _, _) => if t.stage.Begun? then {} else {Admission} + OwnedLocks(d, t.stage)
  }

  function OwnedLocks(d: Deployment, stage: Stage): set<LockId> {
    match stage
    case Considering(_, _, owned) => set u | u in owned :: OwnerScope(d, u)
    case Owning(_, _, owned) => set u | u in owned :: OwnerScope(d, u)
    case Taking(_, owned) => set u | u in owned :: OwnerScope(d, u)
    case _ => {}
  }

  /** The one lock a transaction may be waiting for. */
  function Awaited(d: Deployment, t: Tx): Option<LockId> {
    if (t.program.Submit? || t.program.ChangePlan?) && t.stage.OwnerLock? then Some(OwnerScope(d, t.program.user))
    else if (t.program.Submit? || t.program.Record?) && t.stage.CounterLock? then Some(CounterRow(t.program.user))
    else if t.program.Claim? && t.stage.AdmissionLock? then Some(Admission)
    else None
  }

  /** Stages that belong to a program. */
  predicate WellStaged(t: Tx) {
    match t.stage
    case Begun => true
    case OwnerLock => t.program.Submit? || t.program.ChangePlan?
    case Planned(_) => t.program.Submit?
    case Admitted => t.program.Submit?
    case CounterLock => t.program.Submit? || t.program.Record?
    case Numbered(_) => t.program.Submit? || t.program.Record?
    case Considering(candidates, _, _) => t.program.Claim? && candidates != []
    case Owning(candidates, _, _) => t.program.Claim? && candidates != []
    case _ => t.program.Claim?
  }

  /** The lock table lists a transaction under exactly the locks it asked for, and all but the awaited one are held. */
  ghost predicate LocksAre(d: Deployment, s: State, tx: TxId) {
    if tx in s.txs then
      && WellStaged(s.txs[tx])
      && (forall l :: tx in Queue(s.locks, l) <==> l in LocksOf(d, s.txs[tx]))
      && (forall l :: l in LocksOf(d, s.txs[tx]) && Awaited(d, s.txs[tx]) != Some(l) ==> Holds(s.locks, tx, l))
    else forall l :: tx !in Queue(s.locks, l)
  }

  ghost predicate LockTable(d: Deployment, s: State) {
    WellFormed(s.locks) && forall tx :: LocksAre(d, s, tx)
  }

  // ---- Each kind of change keeps it -----------------------------------------------------------

  /** Moving on without asking for a lock. */
  lemma StageKeeps(d: Deployment, s: State, tx: TxId, stage: Stage)
    requires LockTable(d, s) && tx in s.txs
    requires var t := s.txs[tx].(stage := stage);
      && WellStaged(t) && LocksOf(d, t) == LocksOf(d, s.txs[tx])
      && (Awaited(d, s.txs[tx]).Some? ==> Holds(s.locks, tx, Awaited(d, s.txs[tx]).value))
    ensures LockTable(d, WithStage(s, tx, stage))
  {
    hide LocksOf, Awaited, WellStaged, WellFormed;
    var t := WithStage(s, tx, stage);
    forall x ensures LocksAre(d, t, x) { assert LocksAre(d, s, x); }
  }

  /** Asking for one more lock. */
  lemma RequestKeeps(d: Deployment, s: State, tx: TxId, l: LockId, stage: Stage)
    requires LockTable(d, s) && tx in s.txs && Awaited(d, s.txs[tx]) == None
    requires var t := s.txs[tx].(stage := stage);
      WellStaged(t) && LocksOf(d, t) == LocksOf(d, s.txs[tx]) + {l} && Awaited(d, t) == Some(l)
    ensures LockTable(d, WithStage(s.(locks := Requested(s.locks, tx, l)), tx, stage))
  {
    hide LocksOf, Awaited, WellStaged;
    var t := WithStage(s.(locks := Requested(s.locks, tx, l)), tx, stage);
    assert LocksAre(d, s, tx);
    assert Distinct(Queue(s.locks, l));
    assert forall k :: k != l ==> Queue(t.locks, k) == Queue(s.locks, k);
    forall x ensures LocksAre(d, t, x) {
      assert LocksAre(d, s, x);
      assert x != tx ==> (x in Queue(t.locks, l) <==> x in Queue(s.locks, l));
    }
  }

  /** Taking a lock that is free. */
  lemma TryKeeps(d: Deployment, s: State, tx: TxId, l: LockId, stage: Stage)
    requires LockTable(d, s) && tx in s.txs && Awaited(d, s.txs[tx]) == None
    requires Holds(Tried(s.locks, tx, l), tx, l)
    requires var t := s.txs[tx].(stage := stage);
      WellStaged(t) && LocksOf(d, t) == LocksOf(d, s.txs[tx]) + {l} && Awaited(d, t) == None
    ensures LockTable(d, WithStage(s.(locks := Tried(s.locks, tx, l)), tx, stage))
  {
    hide LocksOf, Awaited, WellStaged;
    var t := WithStage(s.(locks := Tried(s.locks, tx, l)), tx, stage);
    assert Distinct(Queue(s.locks, l));
    assert forall k :: k != l ==> Queue(t.locks, k) == Queue(s.locks, k);
    forall x ensures LocksAre(d, t, x) { assert LocksAre(d, s, x); }
  }

  lemma EndKeeps(d: Deployment, s: State, tx: TxId)
    requires LockTable(d, s)
    ensures LockTable(d, Ended(s, tx))
  {
    hide LocksOf, Awaited, WellStaged;
    var t := Ended(s, tx);
    ReleaseWellFormed(s.locks, tx);
    hide WellFormed, Released;
    forall x ensures LocksAre(d, t, x) {
      assert LocksAre(d, s, x);
      if x != tx {
        forall l ensures (x in Queue(t.locks, l) <==> x in Queue(s.locks, l)) && (Holds(s.locks, x, l) ==> Holds(t.locks, x, l)) {
          ReleaseKeeps(s.locks, x, tx, l);
        }
      }
    }
  }

  /** Whatever changes neither locks nor transactions. */
  lemma SameLocksKeep(d: Deployment, s: State, t: State)
    requires LockTable(d, s) && t.locks == s.locks && t.txs == s.txs
    ensures LockTable(d, t)
  {
    hide LocksOf, Awaited, WellStaged, WellFormed;
    forall x ensures LocksAre(d, t, x) { assert LocksAre(d, s, x); }
  }

  lemma BeginKeeps(d: Deployment, s: State, tx: TxId, p: Program)
    requires LockTable(d, s) && tx !in s.txs
    ensures LockTable(d, s.(txs := s.txs[tx := Tx(p, Begun)]))
  {
    hide WellFormed;
    var t := s.(txs := s.txs[tx := Tx(p, Begun)]);
    forall x ensures LocksAre(d, t, x) { assert LocksAre(d, s, x); }
  }

  lemma ConsideredKeeps(d: Deployment, s: State, tx: TxId, candidates: seq<Candidate>, passedOver: set<UserId>, owned: set<UserId>)
    requires LockTable(d, s) && tx in s.txs && s.txs[tx].program.Claim?
    requires s.txs[tx].stage.SlotFree? || s.txs[tx].stage.Considering? || s.txs[tx].stage.Owning?
    requires OwnedLocks(d, s.txs[tx].stage) == set u | u in owned :: OwnerScope(d, u)
    ensures LockTable(d, Considered(s, tx, candidates, passedOver, owned))
  {
    hide LockTable, OwnerScope;
    if candidates == [] { EndKeeps(d, s, tx); } else { StageKeeps(d, s, tx, Considering(candidates, passedOver, owned)); }
  }

  lemma TryOwnerKeeps(d: Deployment, s: State, tx: TxId)
    requires LockTable(d, s) && tx in s.txs && s.txs[tx].program.Claim?
    requires s.txs[tx].stage.Considering? && s.txs[tx].stage.candidates != []
    ensures LockTable(d, OwnerTried(d, s, tx))
  {
    hide LockTable, OwnerScope, Considered, Holds, Tried;
    var Considering(candidates, passedOver, owned) := s.txs[tx].stage;
    var user := candidates[0].user;
    var l := OwnerScope(d, user);
    if user in passedOver {
      ConsideredKeeps(d, s, tx, candidates[1..], passedOver, owned);
    } else if Holds(Tried(s.locks, tx, l), tx, l) {
      OwnedGrows(d, owned, user);
      TryKeeps(d, s, tx, l, Owning(candidates, passedOver, owned + {user}));
    } else {
      FailedTryChangesNothing(s.locks, tx, l);
      assert s.(locks := Tried(s.locks, tx, l)) == s;
      ConsideredKeeps(d, s, tx, candidates[1..], passedOver + {user}, owned);
    }
  }

  lemma OwnedGrows(d: Deployment, owned: set<UserId>, user: UserId)
    ensures (set u | u in owned + {user} :: OwnerScope(d, u)) == (set u | u in owned :: OwnerScope(d, u)) + {OwnerScope(d, user)}
  {
  }

  lemma FailedTryChangesNothing(locks: Locks, tx: TxId, l: LockId)
    requires !Holds(Tried(locks, tx, l), tx, l)
    ensures Tried(locks, tx, l) == locks
  {
  }

  lemma DecideOwnerKeeps(d: Deployment, s: State, tx: TxId)
    requires LockTable(d, s) && tx in s.txs && s.txs[tx].program.Claim?
    requires s.txs[tx].stage.Owning? && s.txs[tx].stage.candidates != []
    ensures LockTable(d, OwnerDecided(s, tx))
  {
    hide LockTable, OwnerScope, Considered, WithinLimit, RowFree, PlanOf;
    var Owning(candidates, passedOver, owned) := s.txs[tx].stage;
    var c := candidates[0];
    ConsideredKeeps(d, s, tx, candidates[1..], passedOver + {c.user}, owned);
    ConsideredKeeps(d, s, tx, candidates[1..], passedOver, owned);
    StageKeeps(d, s, tx, Taking(c, owned));
  }

  lemma CountedKeeps(d: Deployment, s: State, tx: TxId)
    requires LockTable(d, s) && tx in s.txs && s.txs[tx].program.Submit? && s.txs[tx].stage.Planned?
    ensures LockTable(d, Counted(s, tx))
  {
    hide LockTable, OwnerScope, InFlight, WithinLimit;
    StageKeeps(d, s, tx, Admitted);
    EndKeeps(d, s, tx);
  }

  lemma SlotCheckedKeeps(d: Deployment, s: State, tx: TxId)
    requires LockTable(d, s) && At(s, tx, AdmissionLock) && s.txs[tx].program.Claim? && Holds(s.locks, tx, Admission)
    ensures LockTable(d, SlotChecked(d, s, tx))
  {
    hide LockTable, OwnerScope, Executing, Holds;
    StageKeeps(d, s, tx, SlotFree);
    EndKeeps(d, s, tx);
  }

  lemma ClaimStepKeepsLocks(d: Deployment, s: State, e: Step)
    requires LockTable(d, s) && Enabled(d, s, e)
    requires e.RequestAdmission? || e.CountExecuting? || e.Peek? || e.TryOwner? || e.DecideOwner?
    ensures LockTable(d, Next(d, s, e))
  {
    hide LockTable, OwnerTried, OwnerDecided, Considered, SlotChecked, ArePeeked, Requested, OwnerScope, Holds;
    match e
    case RequestAdmission(tx) => RequestKeeps(d, s, tx, Admission, AdmissionLock);
    case CountExecuting(tx) => SlotCheckedKeeps(d, s, tx);
    case Peek(tx, candidates) => ConsideredKeeps(d, s, tx, candidates, {}, {});
    case TryOwner(tx) => TryOwnerKeeps(d, s, tx);
    case DecideOwner(tx) => DecideOwnerKeeps(d, s, tx);
  }

  lemma TransactionStepKeepsLocks(d: Deployment, s: State, e: Step)
    requires LockTable(d, s) && Enabled(d, s, e)
    requires e.Begin? || e.RequestOwner? || e.ReadPlan? || e.CountInFlight? || e.RequestCounter? || e.AllocateNumber?
      || e.Commit? || e.Abort?
    ensures LockTable(d, Next(d, s, e))
  {
    hide LockTable, Counted, Published, Ended, Requested, WithinLimit, OwnerScope, Holds;
    match e
    case Begin(tx, p) => BeginKeeps(d, s, tx, p);
    case RequestOwner(tx) => RequestKeeps(d, s, tx, OwnerScope(d, s.txs[tx].program.user), OwnerLock);
    case ReadPlan(tx) => StageKeeps(d, s, tx, Planned(PlanOf(s, s.txs[tx].program.user)));
    case CountInFlight(tx) => CountedKeeps(d, s, tx);
    case RequestCounter(tx) => RequestKeeps(d, s, tx, CounterRow(s.txs[tx].program.user), CounterLock);
    case AllocateNumber(tx) => StageKeeps(d, s, tx, Numbered(NextNumber(s.counters, s.txs[tx].program.user)));
    case Commit(tx) =>
      PublishedLocks(s, tx);
      SameLocksKeep(d, s, Published(s, tx));
      EndKeeps(d, Published(s, tx), tx);
    case Abort(tx) => EndKeeps(d, s, tx);
  }

  lemma NextKeepsLocks(d: Deployment, s: State, e: Step)
    requires LockTable(d, s) && Enabled(d, s, e)
    ensures LockTable(d, Next(d, s, e))
  {
    hide LockTable, Next, Enabled;
    if IsStatement(e) || e.Tick? {
      StatementKeepsLocks(d, s, e);
    } else if e.RequestAdmission? || e.CountExecuting? || e.Peek? || e.TryOwner? || e.DecideOwner? {
      ClaimStepKeepsLocks(d, s, e);
    } else {
      TransactionStepKeepsLocks(d, s, e);
    }
  }

  lemma StatementKeepsLocks(d: Deployment, s: State, e: Step)
    requires LockTable(d, s) && Enabled(d, s, e) && (IsStatement(e) || e.Tick?)
    ensures LockTable(d, Next(d, s, e))
  {
    hide LockTable, RowFree;
    SameLocksKeep(d, s, Next(d, s, e));
  }

  lemma PublishedLocks(s: State, tx: TxId)
    requires tx in s.txs
    ensures Published(s, tx).locks == s.locks && Published(s, tx).txs == s.txs
  {
  }

  /** In every run the lock table is in order. */
  lemma {:induction false} AlwaysLockTable(d: Deployment, plans: map<UserId, Limit>, steps: seq<Step>)
    requires IsRun(d, plans, steps)
    ensures LockTable(d, After(d, plans, steps))
    decreases |steps|
  {
    if steps != [] {
      AlwaysLockTable(d, plans, steps[..|steps| - 1]);
      hide LockTable, Next;
      NextKeepsLocks(d, After(d, plans, steps[..|steps| - 1]), steps[|steps| - 1]);
    }
  }

  // ---- Waiting never forms a cycle ------------------------------------------------------------

  /** The order in which locks are waited for: admission, then owners, then counter rows. */
  function Rank(l: LockId): nat {
    match l
    case Admission => 0
    case UserScope(_) => 1
    case CounterRow(_) => 2
  }

  /** While a transaction waits for a lock, everything else it has asked for ranks lower. */
  lemma AwaitedRanksHighest(d: Deployment, t: Tx, l: LockId)
    requires WellStaged(t) && Awaited(d, t).Some? && l in LocksOf(d, t) && l != Awaited(d, t).value
    ensures Rank(l) < Rank(Awaited(d, t).value)
  {
  }

  /** `a` stands behind `b` in the queue of a lock. */
  ghost predicate WaitsFor(s: State, a: TxId, b: TxId) {
    exists l, i, j :: 0 <= i < j < |Queue(s.locks, l)| && Queue(s.locks, l)[i] == b && Queue(s.locks, l)[j] == a
  }

  ghost predicate Waiting(d: Deployment, s: State, a: TxId) {
    a in s.txs && Awaited(d, s.txs[a]).Some? && Waits(s.locks, a, Awaited(d, s.txs[a]).value)
  }

  function Position(queue: seq<TxId>, tx: TxId): (i: nat)
    requires tx in queue
    ensures i < |queue| && queue[i] == tx
  {
    if queue[0] == tx then 0 else
      assert queue == [queue[0]] + queue[1..];
      Position(queue[1..], tx) + 1
  }

  /** `b` waits for something further along than `a` does, or for the same lock nearer the front. */
  ghost predicate FurtherAlong(d: Deployment, s: State, a: TxId, b: TxId) {
    && Waiting(d, s, a) && Waiting(d, s, b)
    && var l, m := Awaited(d, s.txs[a]).value, Awaited(d, s.txs[b]).value;
    && (Rank(l) < Rank(m)
        || (l == m && Position(Queue(s.locks, m), b) < Position(Queue(s.locks, l), a)))
  }

  lemma WaitIsAwaited(d: Deployment, s: State, a: TxId, l: LockId)
    requires LockTable(d, s) && Waits(s.locks, a, l)
    ensures a in s.txs && Awaited(d, s.txs[a]) == Some(l)
  {
    hide LocksOf, Awaited;
    assert LocksAre(d, s, a);
  }

  lemma WaitsGoFurther(d: Deployment, s: State, a: TxId, b: TxId)
    requires LockTable(d, s) && WaitsFor(s, a, b)
    ensures Waiting(d, s, a)
    ensures Waiting(d, s, b) ==> FurtherAlong(d, s, a, b)
  {
    var l, i, j :| 0 <= i < j < |Queue(s.locks, l)| && Queue(s.locks, l)[i] == b && Queue(s.locks, l)[j] == a;
    var queue := Queue(s.locks, l);
    assert Distinct(queue);
    assert LocksAre(d, s, b);
    hide LocksOf, Awaited, WellFormed;
    WaitIsAwaited(d, s, a, l);
    if Waiting(d, s, b) && Awaited(d, s.txs[b]) != Some(l) {
      AwaitedRanksHighest(d, s.txs[b], l);
    }
  }

  lemma FurtherIsTransitive(d: Deployment, s: State, a: TxId, b: TxId, c: TxId)
    requires FurtherAlong(d, s, a, b) && FurtherAlong(d, s, b, c)
    ensures FurtherAlong(d, s, a, c)
  {
    hide Awaited;
  }

  ghost predicate IsWaitPath(s: State, path: seq<TxId>) {
    forall i :: 0 <= i < |path| - 1 ==> WaitsFor(s, path[i], path[i + 1])
  }

  lemma {:induction false} PathGoesFurther(d: Deployment, s: State, path: seq<TxId>, k: nat)
    requires LockTable(d, s) && IsWaitPath(s, path) && 0 < k < |path| - 1
    ensures FurtherAlong(d, s, path[0], path[k])
  {
    hide WaitsFor, LockTable, FurtherAlong;
    assert WaitsFor(s, path[k - 1], path[k]) && WaitsFor(s, path[k], path[k + 1]);
    WaitsGoFurther(d, s, path[k - 1], path[k]);
    WaitsGoFurther(d, s, path[k], path[k + 1]);
    if k > 1 {
      PathGoesFurther(d, s, path, k - 1);
      FurtherIsTransitive(d, s, path[0], path[k - 1], path[k]);
    }
  }

  /** No reachable state has transactions waiting for one another in a circle. */
  lemma NoWaitCycle(d: Deployment, plans: map<UserId, Limit>, steps: seq<Step>, path: seq<TxId>)
    requires IsRun(d, plans, steps) && |path| >= 2
    requires IsWaitPath(After(d, plans, steps), path)
    ensures path[0] != path[|path| - 1]
  {
    var s := After(d, plans, steps);
    AlwaysLockTable(d, plans, steps);
    hide After, LockTable, WaitsFor;
    if path[0] == path[|path| - 1] {
      var round := path + [path[1]];
      assert forall i :: 0 <= i < |path| ==> round[i] == path[i];
      forall i | 0 <= i < |round| - 1 ensures WaitsFor(s, round[i], round[i + 1]) {
        assert i < |path| - 1 ==> WaitsFor(s, path[i], path[i + 1]);
        assert WaitsFor(s, path[0], path[1]);
      }
      PathGoesFurther(d, s, round, |path| - 1);
    }
  }

  // ---- Some transaction can always go on ------------------------------------------------------

  /** The transaction whose release everyone behind `tx` is, in the end, waiting for. */
  lemma {:induction false} FindRunnable(d: Deployment, s: State, tx: TxId) returns (r: TxId)
    requires LockTable(d, s) && tx in s.txs
    ensures r in s.txs && !Waiting(d, s, r)
    decreases if Waiting(d, s, tx) then 3 - Rank(Awaited(d, s.txs[tx]).value) else 0
  {
    hide LocksOf, Awaited, WellFormed;
    if !Waiting(d, s, tx) { return tx; }
    var l := Awaited(d, s.txs[tx]).value;
    var holder := Queue(s.locks, l)[0];
    assert LocksAre(d, s, holder);
    assert holder in Queue(s.locks, l);
    if Waiting(d, s, holder) { AwaitedRanksHighest(d, s.txs[holder], l); }
    r := FindRunnable(d, s, holder);
  }

  /** The next statement of a transaction that is not waiting. */
  function NextStatement(s: State, tx: TxId): Step
    requires tx in s.txs
  {
    match s.txs[tx].stage
    case Begun =>
      if s.txs[tx].program.Claim? then RequestAdmission(tx)
      else if s.txs[tx].program.Record? then RequestCounter(tx)
      else RequestOwner(tx)
    case OwnerLock => if s.txs[tx].program.Submit? then ReadPlan(tx) else Commit(tx)
    case Planned(_) => CountInFlight(tx)
    case Admitted => RequestCounter(tx)
    case CounterLock => AllocateNumber(tx)
    case Numbered(_) => Commit(tx)
    case AdmissionLock => CountExecuting(tx)
    case SlotFree => Peek(tx, [])
    case Considering(_, _, _) => TryOwner(tx)
    case Owning(_, _, _) => DecideOwner(tx)
    case Taking(_, _) => Commit(tx)
  }

  /** A transaction that is not waiting can run its next statement. */
  lemma RunnableGoesOn(d: Deployment, s: State, tx: TxId)
    requires LockTable(d, s) && tx in s.txs && !Waiting(d, s, tx)
    ensures Enabled(d, s, NextStatement(s, tx))
  {
    assert LocksAre(d, s, tx);
    hide WellFormed;
  }

  /** In every run, as long as there are transactions, one of them can run its next statement. */
  lemma SomeoneGoesOn(d: Deployment, plans: map<UserId, Limit>, steps: seq<Step>)
    requires IsRun(d, plans, steps) && After(d, plans, steps).txs != map[]
    ensures var s := After(d, plans, steps); exists tx :: tx in s.txs && Enabled(d, s, NextStatement(s, tx))
  {
    var s := After(d, plans, steps);
    AlwaysLockTable(d, plans, steps);
    hide After, Enabled, LockTable, NextStatement, Waiting;
    var tx :| tx in s.txs;
    var r := FindRunnable(d, s, tx);
    RunnableGoesOn(d, s, r);
  }
}
