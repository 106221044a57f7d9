/** A user's runs in flight never rise past the plan's limit, whatever interleaves. */
module QueueCapacity {
  import opened Collections
  import opened Limits
  import opened LockQueues
  import opened BacktestQueue
  import opened QueueLocks

  /** A submission past its check holds its owner's lock, and one more run still fits. */
  ghost predicate Promised(s: State, tx: TxId)
    requires tx in s.txs
  {
    s.txs[tx].program.Submit? ==>
      var user := s.txs[tx].program.user;
      && (s.txs[tx].stage.Planned? ==> s.txs[tx].stage.limit == PlanOf(s, user))
      && (s.txs[tx].stage.Admitted? || s.txs[tx].stage.CounterLock? || s.txs[tx].stage.Numbered? ==>
        WithinLimit(PlanOf(s, user), |InFlight(s, user)| + 1))
  }

  /** A claim about to update a job row finds the job still queued. */
  ghost predicate Reserved(s: State, tx: TxId)
    requires tx in s.txs
  {
    s.txs[tx].stage.Taking? ==> s.txs[tx].stage.candidate.run in s.runs && s.runs[s.txs[tx].stage.candidate.run].job.Queued?
  }

  ghost predicate Promises(s: State) {
    forall tx :: tx in s.txs ==> Promised(s, tx) && Reserved(s, tx)
  }

  /** Past its check, a submission is the only transaction that can change what it has read. */
  lemma OwnerIsExclusive(d: Deployment, s: State, tx: TxId, other: TxId)
    requires LockTable(d, s) && tx in s.txs && other in s.txs && !s.txs[tx].program.Claim? && !s.txs[other].program.Claim?
    requires s.txs[tx].program.user == s.txs[other].program.user
    requires Holds(s.locks, tx, OwnerScope(d, s.txs[tx].program.user))
    requires Holds(s.locks, other, OwnerScope(d, s.txs[other].program.user))
    ensures tx == other
  {
  }

  lemma CheckedHoldsOwner(d: Deployment, s: State, tx: TxId)
    requires LockTable(d, s) && tx in s.txs && s.txs[tx].program.Submit?
    requires !s.txs[tx].stage.Begun? && !s.txs[tx].stage.OwnerLock?
    ensures Holds(s.locks, tx, OwnerScope(d, s.txs[tx].program.user))
  {
    assert LocksAre(d, s, tx);
    hide OwnerScope, WellFormed;
  }

  lemma TakingHoldsAdmission(d: Deployment, s: State, tx: TxId)
    requires LockTable(d, s) && tx in s.txs && s.txs[tx].stage.Taking?
    ensures s.txs[tx].program.Claim? && Holds(s.locks, tx, Admission)
  {
    assert LocksAre(d, s, tx);
    hide OwnerScope, WellFormed;
  }

  // ---- Changes that raise nothing -------------------------------------------------------------

  /** From `s` to `t` no plan changes, no run appears or comes back in flight, and reserved jobs stay queued. */
  ghost predicate Harmless(s: State, t: State) {
    && t.plans == s.plans
    && (forall r :: r in t.runs && !t.runs[r].job.Closed? ==>
      r in s.runs && !s.runs[r].job.Closed? && s.runs[r].user == t.runs[r].user)
  }

  lemma HarmlessLowers(s: State, t: State, user: UserId)
    requires Harmless(s, t)
    ensures InFlight(t, user) <= InFlight(s, user) && |InFlight(t, user)| <= |InFlight(s, user)|
  {
    SubsetSize(InFlight(t, user), InFlight(s, user));
  }

  lemma PromiseCarries(s: State, t: State, tx: TxId)
    requires tx in s.txs && tx in t.txs && t.txs[tx] == s.txs[tx] && Promised(s, tx)
    requires s.txs[tx].program.Submit? ==>
      PlanOf(t, s.txs[tx].program.user) == PlanOf(s, s.txs[tx].program.user)
      && |InFlight(t, s.txs[tx].program.user)| <= |InFlight(s, s.txs[tx].program.user)|
    ensures Promised(t, tx)
  {
    hide InFlight, PlanOf;
  }

  lemma HarmlessCarries(s: State, t: State, tx: TxId)
    requires tx in s.txs && tx in t.txs && t.txs[tx] == s.txs[tx] && Promised(s, tx) && Harmless(s, t)
    ensures Promised(t, tx)
  {
    if s.txs[tx].program.Submit? { HarmlessLowers(s, t, s.txs[tx].program.user); }
    PromiseCarries(s, t, tx);
  }

  /** A statement on one job whose row no claim has reserved. */
  lemma StatementKeeps(s: State, t: State, run: RunId)
    requires Promises(s) && t.txs == s.txs && Harmless(s, t) && RowFree(s, run)
    requires forall r :: r in s.runs && r != run ==> r in t.runs && t.runs[r] == s.runs[r]
    ensures Promises(t)
  {
    hide Promised, Harmless;
    forall tx | tx in t.txs ensures Promised(t, tx) && Reserved(t, tx) { HarmlessCarries(s, t, tx); }
  }

  /** A job that is claimed is reserved by nobody. */
  lemma ClaimedIsFree(s: State, run: RunId)
    requires Promises(s) && run in s.runs && s.runs[run].job.Claimed?
    ensures RowFree(s, run)
  {
    hide Promised;
    forall tx | tx in s.txs && s.txs[tx].stage.Taking? ensures s.txs[tx].stage.candidate.run != run { assert Reserved(s, tx); }
  }

  /** Nothing but one transaction's stage, or the locks, or the clock, changes. */
  lemma StageChangeKeeps(s: State, t: State, tx: TxId)
    requires Promises(s) && t.plans == s.plans && t.runs == s.runs
    requires forall x :: x in t.txs && x != tx ==> x in s.txs && t.txs[x] == s.txs[x]
    requires tx in t.txs ==> Promised(t, tx) && Reserved(t, tx)
    ensures Promises(t)
  {
    hide Promised;
    forall x | x in t.txs ensures Promised(t, x) && Reserved(t, x) {
      if x != tx {
        assert Promised(s, x) && Reserved(s, x);
        HarmlessCarries(s, t, x);
      }
    }
  }

  // ---- Commits --------------------------------------------------------------------------------

  lemma NewRunInFlight(s: State, user: UserId, number: nat, job: Job, other: UserId)
    requires s.nextRun !in s.runs
    ensures InFlight(WithNewRun(s, user, number, job), other) ==
      InFlight(s, other) + (if other == user && !job.Closed? then {s.nextRun} else {})
    ensures s.nextRun !in InFlight(s, other)
  {
  }

  lemma CommitKeepsOther(d: Deployment, s: State, tx: TxId, x: TxId)
    requires LockTable(d, s) && Promises(s) && s.nextRun !in s.runs
    requires tx in s.txs && Committable(d, s, tx) && x in s.txs && x != tx
    ensures Promised(Published(s, tx), x) && Reserved(Published(s, tx), x)
  {
    var t := Published(s, tx);
    assert Promised(s, x) && Reserved(s, x);
    hide LockTable, InFlight;
    match s.txs[tx].program
    case Submit(user) =>
      CheckedHoldsOwner(d, s, tx);
      SubmitKeepsOther(d, s, tx, x);
    case Record(user) =>
      if s.txs[x].program.Submit? { NewRunInFlight(s, user, s.txs[tx].stage.number, Closed, s.txs[x].program.user); }
      PromiseCarries(s, t, x);
    case ChangePlan(user, limit) =>
      if s.txs[x].program.Submit? && s.txs[x].program.user == user && !s.txs[x].stage.Begun? && !s.txs[x].stage.OwnerLock? {
        CheckedHoldsOwner(d, s, x);
        OwnerIsExclusive(d, s, tx, x);
      }
      assert InFlight(t, if s.txs[x].program.Submit? then s.txs[x].program.user else 0)
          == InFlight(s, if s.txs[x].program.Submit? then s.txs[x].program.user else 0) by { SameRuns(s, t); }
    case Claim(worker, now, leaseMs) =>
      assert Reserved(s, tx);
      ClaimHarmless(s, t, tx);
      HarmlessCarries(s, t, x);
      if s.txs[x].stage.Taking? {
        TakingHoldsAdmission(d, s, tx);
        TakingHoldsAdmission(d, s, x);
        HoldersAreOne(s.locks, tx, x, Admission);
      }
  }

  lemma SameRuns(s: State, t: State)
    requires t.runs == s.runs
    ensures forall user :: InFlight(t, user) == InFlight(s, user)
  {
  }

  lemma SubmitKeepsOther(d: Deployment, s: State, tx: TxId, x: TxId)
    requires LockTable(d, s) && s.nextRun !in s.runs && tx in s.txs && x in s.txs && x != tx
    requires s.txs[tx].program.Submit? && s.txs[tx].stage.Numbered?
    requires Promised(s, x) && Reserved(s, x)
    ensures Promised(Published(s, tx), x) && Reserved(Published(s, tx), x)
  {
    hide LockTable, InFlight, Holds, OwnerScope;
    var t := Published(s, tx);
    var user := s.txs[tx].program.user;
    CheckedHoldsOwner(d, s, tx);
    if s.txs[x].program.Submit? && !s.txs[x].stage.Begun? && !s.txs[x].stage.OwnerLock? {
      CheckedHoldsOwner(d, s, x);
      if s.txs[x].program.user == user { OwnerIsExclusive(d, s, tx, x); }
    }
    if s.txs[x].program.Submit? {
      NewRunInFlight(s, user, s.txs[tx].stage.number, Queued, s.txs[x].program.user);
    }
  }

  lemma ClaimHarmless(s: State, t: State, tx: TxId)
    requires tx in s.txs && s.txs[tx].program.Claim? && s.txs[tx].stage.Taking? && Reserved(s, tx) && t == Published(s, tx)
    ensures Harmless(s, t)
  {
  }

  lemma CommitKeeps(d: Deployment, s: State, tx: TxId)
    requires LockTable(d, s) && Promises(s) && s.nextRun !in s.runs && tx in s.txs && Committable(d, s, tx)
    ensures Promises(Ended(Published(s, tx), tx))
  {
    var t := Published(s, tx);
    PublishedLocks(s, tx);
    var u := Ended(t, tx);
    hide LockTable, Promised, Reserved, Released, Published, Committable;
    forall x | x in u.txs ensures Promised(u, x) && Reserved(u, x) {
      CommitKeepsOther(d, s, tx, x);
      EndedCarries(t, tx, x);
    }
  }

  lemma EndedCarries(s: State, tx: TxId, x: TxId)
    requires x in s.txs && x != tx && Promised(s, x) && Reserved(s, x)
    ensures Promised(Ended(s, tx), x) && Reserved(Ended(s, tx), x)
  {
    SameRuns(s, Ended(s, tx));
    hide InFlight, Released;
  }

  // ---- Every step -----------------------------------------------------------------------------

  ghost predicate FreshRun(s: State) { forall r :: r in s.runs ==> r < s.nextRun }

  lemma ConsideredPromises(s: State, tx: TxId, candidates: seq<Candidate>, passedOver: set<UserId>, owned: set<UserId>)
    requires Promises(s) && tx in s.txs && s.txs[tx].program.Claim?
    ensures Promises(Considered(s, tx, candidates, passedOver, owned))
  {
    hide Promises, InFlight;
    StageChangeKeeps(s, Considered(s, tx, candidates, passedOver, owned), tx);
  }

  lemma ClaimStepPromises(d: Deployment, s: State, e: Step)
    requires Promises(s) && Enabled(d, s, e) && (e.Peek? || e.TryOwner? || e.DecideOwner?)
    ensures Promises(Next(d, s, e))
  {
    hide Promises, InFlight, Considered, ArePeeked, Holds, Tried, WithinLimit, PlanOf, OwnerScope;
    var tx := e.tx;
    if e.Peek? {
      ConsideredPromises(s, tx, e.candidates, {}, {});
    } else if e.TryOwner? {
      var Considering(candidates, passedOver, owned) := s.txs[tx].stage;
      var t := s.(locks := Tried(s.locks, tx, OwnerScope(d, candidates[0].user)));
      StageChangeKeeps(s, WithStage(t, tx, Owning(candidates, passedOver, owned + {candidates[0].user})), tx);
      SameTransactionsKeep(s, t);
      ConsideredPromises(s, tx, candidates[1..], passedOver, owned);
      ConsideredPromises(s, tx, candidates[1..], passedOver + {candidates[0].user}, owned);
    } else {
      var Owning(candidates, passedOver, owned) := s.txs[tx].stage;
      ConsideredPromises(s, tx, candidates[1..], passedOver, owned);
      ConsideredPromises(s, tx, candidates[1..], passedOver + {candidates[0].user}, owned);
      if candidates[0].run in s.runs && s.runs[candidates[0].run].job.Queued? {
        StageChangeKeeps(s, WithStage(s, tx, Taking(candidates[0], owned)), tx);
      }
    }
  }

  lemma SameTransactionsKeep(s: State, t: State)
    requires Promises(s) && t.plans == s.plans && t.runs == s.runs && t.txs == s.txs
    ensures Promises(t)
  {
    SameRuns(s, t);
    hide InFlight;
    forall tx | tx in t.txs ensures Promised(t, tx) && Reserved(t, tx) { assert Promised(s, tx) && Reserved(s, tx); }
  }

  /** The two checks: a submission's count and a claim's. */
  lemma CheckPromises(d: Deployment, s: State, e: Step)
    requires Promises(s) && Enabled(d, s, e) && (e.CountInFlight? || e.CountExecuting?)
    ensures Promises(Next(d, s, e))
  {
    var tx, t := e.tx, Next(d, s, e);
    assert Promised(s, tx) && Reserved(s, tx);
    OnlyCommitPublishes(d, s, e);
    SameRuns(s, t);
    hide Promises, InFlight, Executing, Holds, Released, WithinLimit, PlanOf;
    StageChangeKeeps(s, t, tx);
  }

  /** The other stage changes of a submission, a recording or a plan change, and the start of a claim. */
  lemma TransactionStepPromises(d: Deployment, s: State, e: Step)
    requires Promises(s) && Enabled(d, s, e)
    requires e.Begin? || e.RequestOwner? || e.ReadPlan? || e.RequestCounter? || e.AllocateNumber? || e.RequestAdmission? || e.Abort?
    ensures Promises(Next(d, s, e))
  {
    var tx, t := e.tx, Next(d, s, e);
    assert tx in s.txs ==> Promised(s, tx) && Reserved(s, tx);
    SameRuns(s, t);
    hide Promises, InFlight, Holds, Requested, Released, WithinLimit, PlanOf, OwnerScope, NextNumber;
    StageChangeKeeps(s, t, tx);
  }

  lemma StatementPromises(d: Deployment, s: State, e: Step)
    requires Promises(s) && Enabled(d, s, e)
    requires IsStatement(e)
    ensures Promises(Next(d, s, e))
  {
    if s.runs[e.run].job.Claimed? { ClaimedIsFree(s, e.run); }
    hide Promises, InFlight, RowFree;
    StatementKeeps(s, Next(d, s, e), e.run);
  }

  lemma NextKeepsPromises(d: Deployment, s: State, e: Step)
    requires LockTable(d, s) && Promises(s) && FreshRun(s) && Enabled(d, s, e)
    ensures Promises(Next(d, s, e)) && FreshRun(Next(d, s, e))
  {
    FreshKept(d, s, e);
    if e.Commit? {
      CommitKeeps(d, s, e.tx);
    } else {
      hide LockTable, Promises, FreshRun, Next, Enabled;
      if IsStatement(e) { StatementPromises(d, s, e); }
      else if e.Tick? { TickPromises(d, s, e); }
      else if e.Peek? || e.TryOwner? || e.DecideOwner? { ClaimStepPromises(d, s, e); }
      else if e.CountInFlight? || e.CountExecuting? { CheckPromises(d, s, e); }
      else { TransactionStepPromises(d, s, e); }
    }
  }

  lemma TickPromises(d: Deployment, s: State, e: Step)
    requires Promises(s) && e.Tick?
    ensures Promises(Next(d, s, e))
  {
    SameTransactionsKeep(s, Next(d, s, e));
  }

  lemma FreshKept(d: Deployment, s: State, e: Step)
    requires FreshRun(s) && Enabled(d, s, e)
    ensures FreshRun(Next(d, s, e))
  {
    if !e.Commit? && !e.Tick? && !IsStatement(e) {
      OnlyCommitPublishes(d, s, e);
    } else if e.Commit? {
      PublishedFresh(s, e.tx);
      hide Published, Committable, Released;
    } else {
      hide RowFree;
    }
  }

  lemma PublishedFresh(s: State, tx: TxId)
    requires FreshRun(s) && tx in s.txs
    ensures FreshRun(Published(s, tx))
  {
  }

  lemma {:induction false} AlwaysPromises(d: Deployment, plans: map<UserId, Limit>, steps: seq<Step>)
    requires IsRun(d, plans, steps)
    ensures Promises(After(d, plans, steps)) && FreshRun(After(d, plans, steps))
    decreases |steps|
  {
    if steps != [] {
      AlwaysPromises(d, plans, steps[..|steps| - 1]);
      AlwaysLockTable(d, plans, steps[..|steps| - 1]);
      hide LockTable, Promises, FreshRun, Next;
      NextKeepsPromises(d, After(d, plans, steps[..|steps| - 1]), steps[|steps| - 1]);
    }
  }

  // ---- The limit ------------------------------------------------------------------------------

  /** Only the commit of a submission raises the count, and then the limit in force allows it. */
  lemma RaisingStaysWithin(d: Deployment, s: State, e: Step, user: UserId)
    requires Promises(s) && FreshRun(s) && Enabled(d, s, e)
    requires |InFlight(Next(d, s, e), user)| > |InFlight(s, user)|
    ensures WithinLimit(PlanOf(Next(d, s, e), user), |InFlight(Next(d, s, e), user)|)
  {
    if e.Commit? && s.txs[e.tx].program.Submit? {
      var tx := e.tx;
      assert Promised(s, tx);
      var owner := s.txs[tx].program.user;
      var t := Published(s, tx);
      NewRunInFlight(s, owner, s.txs[tx].stage.number, Queued, user);
      SameRuns(t, Ended(t, tx));
      hide InFlight, Released;
      assert user == owner;
    } else {
      OthersRaiseNothing(d, s, e, user);
    }
  }

  /** Every other step raises nobody's count. */
  lemma OthersRaiseNothing(d: Deployment, s: State, e: Step, user: UserId)
    requires Promises(s) && FreshRun(s) && Enabled(d, s, e) && !(e.Commit? && s.txs[e.tx].program.Submit?)
    ensures |InFlight(Next(d, s, e), user)| <= |InFlight(s, user)|
  {
    var t := Next(d, s, e);
    if e.Commit? {
      var tx := e.tx;
      assert Reserved(s, tx);
      var u := Published(s, tx);
      SameRuns(u, Ended(u, tx));
      hide Promises, Released;
      if s.txs[tx].program.Claim? {
        ClaimHarmless(s, u, tx);
        HarmlessLowers(s, u, user);
      } else if s.txs[tx].program.Record? {
        NewRunInFlight(s, s.txs[tx].program.user, s.txs[tx].stage.number, Closed, user);
      } else {
        SameRuns(s, u);
      }
    } else {
      NonCommitHarmless(d, s, e);
      HarmlessLowers(s, t, user);
    }
  }

  lemma NonCommitHarmless(d: Deployment, s: State, e: Step)
    requires Enabled(d, s, e) && !e.Commit?
    ensures Harmless(s, Next(d, s, e))
  {
    if !e.Tick? && !IsStatement(e) {
      OnlyCommitPublishes(d, s, e);
      hide Next;
    } else {
      hide RowFree, Released, Holds, OwnerScope;
    }
  }

  /** In every run, a step that raises a user's runs in flight leaves them within the limit then in force. */
  lemma NeverRaisedPastLimit(d: Deployment, plans: map<UserId, Limit>, steps: seq<Step>, user: UserId)
    requires IsRun(d, plans, steps) && steps != []
    ensures var before, after := After(d, plans, steps[..|steps| - 1]), After(d, plans, steps);
      |InFlight(after, user)| > |InFlight(before, user)| && PlanOf(after, user).Some? ==>
        |InFlight(after, user)| <= PlanOf(after, user).value
  {
    AlwaysPromises(d, plans, steps[..|steps| - 1]);
    hide Promises, FreshRun, Next, InFlight, PlanOf;
    var before, e := After(d, plans, steps[..|steps| - 1]), steps[|steps| - 1];
    if |InFlight(Next(d, before, e), user)| > |InFlight(before, user)| { RaisingStaysWithin(d, before, e, user); }
  }

  /** The plan of a user never changed along a run. */
  ghost predicate PlanUnchanged(d: Deployment, plans: map<UserId, Limit>, steps: seq<Step>, user: UserId)
    requires IsRun(d, plans, steps)
    decreases |steps|
  {
    steps == [] ||
    (PlanOf(After(d, plans, steps), user) == PlanOf(After(d, plans, steps[..|steps| - 1]), user)
     && PlanUnchanged(d, plans, steps[..|steps| - 1], user))
  }

  /** While a user's plan stays the same, their runs in flight stay within it. */
  lemma {:induction false} InFlightStaysWithin(d: Deployment, plans: map<UserId, Limit>, steps: seq<Step>, user: UserId)
    requires IsRun(d, plans, steps) && PlanUnchanged(d, plans, steps, user)
    ensures var s := After(d, plans, steps); PlanOf(s, user).Some? ==> |InFlight(s, user)| <= PlanOf(s, user).value
    decreases |steps|
  {
    if steps == [] {
      assert InFlight(Initial(plans), user) == {};
    } else {
      InFlightStaysWithin(d, plans, steps[..|steps| - 1], user);
      NeverRaisedPastLimit(d, plans, steps, user);
      hide Next, InFlight, PlanOf;
    }
  }
}
