/**
 * The claim's second limit: an owner's executing runs stay within the plan re-read under the owner's lock.
 *
 * A claim decides with the owner's executing count its candidate query read. The source holds that this count cannot
 * become an undercount while the claim lasts; a heartbeat that revives a lapsed lease of that owner can make it one.
 */
module QueueOwners {
  import opened Collections
  import opened Limits
  import opened LockQueues
  import opened BacktestQueue
  import opened QueueLocks
  import opened QueueCapacity
  import opened QueueLeases

  // ---- What a claim has decided ---------------------------------------------------------------

  /** A candidate's run belongs to the candidate's owner, for as long as it exists. */
  ghost predicate OwnerIsRight(s: State, c: Candidate) {
    c.run < s.nextRun && (c.run in s.runs ==> s.runs[c.run].user == c.user)
  }

  /** A claim's candidates name their owners, and what it is taking fits the plan of an owner it has locked. */
  ghost predicate DecisionStands(s: State, tx: TxId)
    requires tx in s.txs
  {
    match s.txs[tx].stage
    case Considering(candidates, _, _) => forall i :: 0 <= i < |candidates| ==> OwnerIsRight(s, candidates[i])
    case Owning(candidates, _, owned) =>
      && (forall i :: 0 <= i < |candidates| ==> OwnerIsRight(s, candidates[i]))
      && (candidates != [] ==> candidates[0].user in owned)
    case Taking(c, owned) =>
      OwnerIsRight(s, c) && c.user in owned && WithinLimit(PlanOf(s, c.user), c.ownerRunning + 1)
    case _ => true
  }

  ghost predicate DecisionsStand(s: State) { forall tx :: tx in s.txs ==> DecisionStands(s, tx) }

  /** No plan changes, and runs keep their owners. */
  ghost predicate OwnersKept(s: State, t: State) {
    && t.plans == s.plans && t.nextRun >= s.nextRun
    && (forall r :: r in t.runs && r < s.nextRun ==> r in s.runs && t.runs[r].user == s.runs[r].user)
  }

  lemma SamePlans(s: State, t: State)
    requires t.plans == s.plans
    ensures forall user :: PlanOf(t, user) == PlanOf(s, user)
  {
  }

  lemma DecisionCarries(s: State, t: State, tx: TxId)
    requires tx in s.txs && tx in t.txs && t.txs[tx] == s.txs[tx] && DecisionStands(s, tx) && OwnersKept(s, t)
    ensures DecisionStands(t, tx)
  {
    SamePlans(s, t);
    hide PlanOf;
    assert forall c :: OwnerIsRight(s, c) ==> OwnerIsRight(t, c);
  }

  /** Every transaction but `tx` carries its decision over a step that keeps owners. */
  lemma OthersCarry(s: State, t: State, tx: TxId)
    requires DecisionsStand(s) && OwnersKept(s, t)
    requires forall x :: x in t.txs && x != tx ==> x in s.txs && t.txs[x] == s.txs[x]
    requires tx in t.txs ==> DecisionStands(t, tx)
    ensures DecisionsStand(t)
  {
    hide OwnersKept, DecisionStands;
    forall x | x in t.txs ensures DecisionStands(t, x) { if x != tx { DecisionCarries(s, t, x); } }
  }

  lemma StatementKeepsOwners(d: Deployment, s: State, e: Step)
    requires Enabled(d, s, e) && (IsStatement(e) || e.Tick?)
    ensures OwnersKept(s, Next(d, s, e)) && Next(d, s, e).txs == s.txs
  {
    hide RowFree;
  }

  // ---- The loop over candidates ---------------------------------------------------------------

  lemma PeekedOwnersAreRight(s: State, now: nat, candidates: seq<Candidate>)
    requires FreshRun(s) && ArePeeked(s, now, candidates)
    ensures forall i :: 0 <= i < |candidates| ==> OwnerIsRight(s, candidates[i])
  {
    hide OwnerExecuting;
  }

  lemma ConsideredStands(s: State, tx: TxId, candidates: seq<Candidate>, passedOver: set<UserId>, owned: set<UserId>)
    requires tx in s.txs && forall i :: 0 <= i < |candidates| ==> OwnerIsRight(s, candidates[i])
    ensures var t := Considered(s, tx, candidates, passedOver, owned); tx in t.txs ==> DecisionStands(t, tx)
  {
    hide Released;
  }

  lemma TryStands(d: Deployment, s: State, tx: TxId)
    requires Enabled(d, s, TryOwner(tx)) && DecisionStands(s, tx)
    ensures var t := Next(d, s, TryOwner(tx)); tx in t.txs ==> DecisionStands(t, tx)
  {
    hide Considered, Holds, Tried, OwnerScope;
    var Considering(candidates, passedOver, owned) := s.txs[tx].stage;
    ConsideredStands(s, tx, candidates[1..], passedOver, owned);
    ConsideredStands(s, tx, candidates[1..], passedOver + {candidates[0].user}, owned);
  }

  lemma DecideStands(d: Deployment, s: State, tx: TxId)
    requires Enabled(d, s, DecideOwner(tx)) && DecisionStands(s, tx)
    ensures var t := Next(d, s, DecideOwner(tx)); tx in t.txs ==> DecisionStands(t, tx)
  {
    hide Considered, RowFree;
    var Owning(candidates, passedOver, owned) := s.txs[tx].stage;
    ConsideredStands(s, tx, candidates[1..], passedOver, owned);
    ConsideredStands(s, tx, candidates[1..], passedOver + {candidates[0].user}, owned);
  }

  lemma CandidatesStand(d: Deployment, s: State, e: Step)
    requires FreshRun(s) && Enabled(d, s, e) && (e.Peek? || e.TryOwner? || e.DecideOwner?)
    requires e.tx in s.txs && DecisionStands(s, e.tx)
    ensures e.tx in Next(d, s, e).txs ==> DecisionStands(Next(d, s, e), e.tx)
  {
    hide DecisionStands, Considered, OwnerTried, OwnerDecided, FreshRun, ArePeeked, OwnerIsRight;
    match e
    case Peek(tx, candidates) =>
      PeekedOwnersAreRight(s, s.txs[tx].program.now, candidates);
      ConsideredStands(s, tx, candidates, {}, {});
    case TryOwner(tx) => TryStands(d, s, tx);
    case DecideOwner(tx) => DecideStands(d, s, tx);
  }

  // ---- Commits --------------------------------------------------------------------------------

  /** A claim that has an owner holds the owner's lock, so no plan change of that owner commits meanwhile. */
  lemma OwnedIsHeld(d: Deployment, s: State, tx: TxId, user: UserId)
    requires LockTable(d, s) && tx in s.txs && s.txs[tx].stage.Taking? && user in s.txs[tx].stage.owned
    ensures Holds(s.locks, tx, OwnerScope(d, user))
  {
    assert LocksAre(d, s, tx);
    assert OwnerScope(d, user) in LocksOf(d, s.txs[tx]);
  }

  lemma PlanChangeKeepsDecision(d: Deployment, s: State, tx: TxId, x: TxId)
    requires LockTable(d, s) && x in s.txs && DecisionStands(s, x)
    requires tx in s.txs && s.txs[tx].program.ChangePlan? && Committable(d, s, tx) && x != tx
    ensures DecisionStands(Published(s, tx), x)
  {
    hide LockTable, Holds, OwnerScope;
    var t := Published(s, tx);
    assert forall c :: OwnerIsRight(s, c) ==> OwnerIsRight(t, c);
    if s.txs[x].stage.Taking? {
      var user := s.txs[x].stage.candidate.user;
      OwnedIsHeld(d, s, x, user);
      if user == s.txs[tx].program.user { HoldersAreOne(s.locks, tx, x, OwnerScope(d, user)); }
    }
  }

  lemma CommitKeepsDecision(d: Deployment, s: State, tx: TxId, x: TxId)
    requires LockTable(d, s) && FreshRun(s) && tx in s.txs && x in s.txs && x != tx && DecisionStands(s, x)
    requires Committable(d, s, tx)
    ensures DecisionStands(Published(s, tx), x)
  {
    PublishedLocks(s, tx);
    if s.txs[tx].program.ChangePlan? {
      PlanChangeKeepsDecision(d, s, tx, x);
    } else {
      CommitKeepsOwners(s, tx);
      hide Published, Committable;
      DecisionCarries(s, Published(s, tx), x);
    }
  }

  lemma CommitKeepsOwners(s: State, tx: TxId)
    requires FreshRun(s) && tx in s.txs && !s.txs[tx].program.ChangePlan?
    ensures OwnersKept(s, Published(s, tx))
  {
  }

  lemma CommitKeepsDecisions(d: Deployment, s: State, tx: TxId)
    requires LockTable(d, s) && FreshRun(s) && DecisionsStand(s) && tx in s.txs && Committable(d, s, tx)
    ensures DecisionsStand(Ended(Published(s, tx), tx))
  {
    PublishedLocks(s, tx);
    var t := Published(s, tx);
    var u := Ended(t, tx);
    hide LockTable, FreshRun, DecisionStands, Published, Committable, Released;
    forall x | x in u.txs ensures DecisionStands(u, x) {
      CommitKeepsDecision(d, s, tx, x);
      DecisionCarries(t, u, x);
    }
  }

  // ---- Every step -----------------------------------------------------------------------------

  lemma StageIsNoDecision(d: Deployment, s: State, e: Step)
    requires Enabled(d, s, e) && !e.Commit? && !e.Tick? && !IsStatement(e) && !e.Peek? && !e.TryOwner? && !e.DecideOwner?
    ensures var t := Next(d, s, e);
      && (forall x :: x in t.txs && x != e.tx ==> x in s.txs && t.txs[x] == s.txs[x])
      && (e.tx in t.txs ==> DecisionStands(t, e.tx))
      && (e.tx in t.txs ==> !PastPeek(t.txs[e.tx]))
  {
    hide InFlight, Executing, OwnerExecuting, Holds, Requested, Released, WithinLimit, PlanOf, OwnerScope, NextNumber;
  }

  lemma NextKeepsDecisions(d: Deployment, s: State, e: Step)
    requires LockTable(d, s) && FreshRun(s) && DecisionsStand(s) && Enabled(d, s, e)
    ensures DecisionsStand(Next(d, s, e))
  {
    var t := Next(d, s, e);
    if e.Commit? {
      CommitKeepsDecisions(d, s, e.tx);
    } else if IsStatement(e) || e.Tick? {
      StatementKeepsOwners(d, s, e);
      hide Next, OwnersKept, LockTable, FreshRun, DecisionStands;
      forall x | x in t.txs ensures DecisionStands(t, x) { DecisionCarries(s, t, x); }
    } else {
      OnlyCommitPublishes(d, s, e);
      if e.Peek? || e.TryOwner? || e.DecideOwner? {
        ConsideringGoesOn(d, s, e);
        CandidatesStand(d, s, e);
      } else {
        StageIsNoDecision(d, s, e);
      }
      assert OwnersKept(s, t);
      hide Next, Enabled, OwnersKept, LockTable, FreshRun, DecisionStands, DecisionsStand;
      OthersCarry(s, t, e.tx);
    }
  }

  /** In every run, what a claim is taking fits the plan of its owner by the count it has read. */
  lemma {:induction false} AlwaysDecided(d: Deployment, plans: map<UserId, Limit>, steps: seq<Step>)
    requires IsRun(d, plans, steps)
    ensures DecisionsStand(After(d, plans, steps))
    decreases |steps|
  {
    if steps != [] {
      var before := steps[..|steps| - 1];
      AlwaysDecided(d, plans, before);
      AlwaysLockTable(d, plans, before);
      AlwaysPromises(d, plans, before);
      hide LockTable, FreshRun, DecisionsStand, Next;
      NextKeepsDecisions(d, After(d, plans, before), steps[|steps| - 1]);
    }
  }

  // ---- Whether the count is an undercount -----------------------------------------------------

  /** A claim that has read its candidates. */
  predicate PastPeek(t: Tx) { t.stage.Considering? || t.stage.Owning? || t.stage.Taking? }

  /** The candidates that the latest query of `tx` returned. */
  function PeekedBy(steps: seq<Step>, tx: TxId): seq<Candidate> {
    if steps == [] then []
    else if steps[|steps| - 1].Peek? && steps[|steps| - 1].tx == tx then steps[|steps| - 1].candidates
    else PeekedBy(steps[..|steps| - 1], tx)
  }

  function OwnersNow(s: State, c: Candidate): nat { |OwnerExecuting(s, c.user, s.clock)| }

  /** Since that query, the candidate's count has covered what its owner was executing. */
  ghost predicate NeverUndercounted(d: Deployment, plans: map<UserId, Limit>, steps: seq<Step>, tx: TxId, c: Candidate)
    requires IsRun(d, plans, steps)
    decreases |steps|
  {
    steps == [] ||
    (OwnersNow(After(d, plans, steps), c) <= c.ownerRunning
     && ((steps[|steps| - 1].Peek? && steps[|steps| - 1].tx == tx)
         || NeverUndercounted(d, plans, steps[..|steps| - 1], tx, c)))
  }

  /** The heartbeat revives a lapsed lease of the candidate's owner when as many runs as were counted are executing. */
  predicate OverfillsOwner(s: State, e: Step, c: Candidate) {
    Revives(s, e) && s.runs[e.run].user == c.user && OwnersNow(s, c) == c.ownerRunning
  }

  /** Since that query, no heartbeat has done so. */
  ghost predicate NoneOverfilled(d: Deployment, plans: map<UserId, Limit>, steps: seq<Step>, tx: TxId, c: Candidate)
    requires IsRun(d, plans, steps)
    decreases |steps|
  {
    steps == [] || (steps[|steps| - 1].Peek? && steps[|steps| - 1].tx == tx)
    || (!OverfillsOwner(After(d, plans, steps[..|steps| - 1]), steps[|steps| - 1], c)
        && NoneOverfilled(d, plans, steps[..|steps| - 1], tx, c))
  }

  /** Claimed jobs of a user with a live lease only become fewer. */
  lemma FewerOwned(s: State, t: State, user: UserId)
    requires forall r :: r in OwnerExecuting(t, user, t.clock) ==> r in OwnerExecuting(s, user, s.clock)
    ensures |OwnerExecuting(t, user, t.clock)| <= |OwnerExecuting(s, user, s.clock)|
  {
    SubsetSize(OwnerExecuting(t, user, t.clock), OwnerExecuting(s, user, s.clock));
  }

  lemma HeartbeatOwned(d: Deployment, s: State, e: Step, user: UserId)
    requires Enabled(d, s, e) && e.Heartbeat?
    ensures var t := Next(d, s, e);
      if Revives(s, e) && s.runs[e.run].user == user
      then |OwnerExecuting(t, user, t.clock)| == |OwnerExecuting(s, user, s.clock)| + 1
      else |OwnerExecuting(t, user, t.clock)| <= |OwnerExecuting(s, user, s.clock)|
  {
    var t := Next(d, s, e);
    if Revives(s, e) && s.runs[e.run].user == user {
      assert OwnerExecuting(t, user, t.clock) == OwnerExecuting(s, user, s.clock) + {e.run};
    } else {
      FewerOwned(s, t, user);
    }
  }

  lemma StatementOwned(d: Deployment, s: State, e: Step, user: UserId)
    requires Enabled(d, s, e) && (IsStatement(e) || e.Tick?) && !e.Heartbeat?
    ensures var t := Next(d, s, e); |OwnerExecuting(t, user, t.clock)| <= |OwnerExecuting(s, user, s.clock)|
  {
    hide RowFree;
    FewerOwned(s, Next(d, s, e), user);
  }

  /** While `tx` is past its query no other claim commits, so commits start nothing. */
  lemma CommitOwned(d: Deployment, s: State, e: Step, tx: TxId, user: UserId)
    requires LockTable(d, s) && FreshRun(s) && Enabled(d, s, e) && e.Commit? && e.tx != tx
    requires tx in s.txs && HoldsSlot(s.txs[tx])
    ensures var t := Next(d, s, e); |OwnerExecuting(t, user, t.clock)| <= |OwnerExecuting(s, user, s.clock)|
  {
    if HoldsSlot(s.txs[e.tx]) { SlotHolderIsOne(d, s, tx, e.tx); }
    assert !s.txs[e.tx].program.Claim?;
    hide LockTable, Released;
    FewerOwned(s, Next(d, s, e), user);
  }

  lemma SameCommittedOwned(s: State, t: State, user: UserId)
    requires SameCommitted(s, t)
    ensures OwnerExecuting(t, user, t.clock) == OwnerExecuting(s, user, s.clock)
  {
  }

  /** One step under a claim that is past its query: the count stays covered unless a revival overfills the owner. */
  lemma NextOwned(d: Deployment, s: State, e: Step, tx: TxId, c: Candidate)
    requires LockTable(d, s) && FreshRun(s) && Enabled(d, s, e)
    requires tx in s.txs && HoldsSlot(s.txs[tx]) && !(e.Commit? && e.tx == tx)
    requires OwnersNow(s, c) <= c.ownerRunning
    ensures OwnersNow(Next(d, s, e), c) <= c.ownerRunning <==> !OverfillsOwner(s, e, c)
  {
    hide LockTable, FreshRun, HoldsSlot, Next, Enabled, OwnerExecuting;
    if e.Heartbeat? { HeartbeatOwned(d, s, e, c.user); }
    else if IsStatement(e) || e.Tick? { StatementOwned(d, s, e, c.user); }
    else if e.Commit? { CommitOwned(d, s, e, tx, c.user); }
    else {
      OnlyCommitPublishes(d, s, e);
      SameCommittedOwned(s, Next(d, s, e), c.user);
    }
  }

  /** What the query returns is no undercount when it returns it. */
  lemma PeekCounts(d: Deployment, s: State, tx: TxId, candidates: seq<Candidate>, c: Candidate)
    requires ClocksBehind(s) && Enabled(d, s, Peek(tx, candidates)) && c in candidates
    ensures OwnersNow(Next(d, s, Peek(tx, candidates)), c) <= c.ownerRunning
  {
    var now := s.txs[tx].program.now;
    ConsideringGoesOn(d, s, Peek(tx, candidates));
    SameCommittedOwned(s, Next(d, s, Peek(tx, candidates)), c.user);
    hide Next;
    SubsetSize(OwnerExecuting(s, c.user, s.clock), OwnerExecuting(s, c.user, now));
  }

  /** A claim past its query was past it, or had just found its slot, before any step but the query itself. */
  lemma WasPastPeek(d: Deployment, s: State, e: Step, tx: TxId)
    requires Enabled(d, s, e) && !(e.Peek? && e.tx == tx) && tx in Next(d, s, e).txs && PastPeek(Next(d, s, e).txs[tx])
    ensures tx in s.txs && PastPeek(s.txs[tx]) && !(e.Commit? && e.tx == tx)
  {
    if e.Commit? {
      PublishedLocks(s, e.tx);
      hide Published, Released, Committable;
    } else if IsStatement(e) || e.Tick? {
      StatementKeepsOwners(d, s, e);
      hide Next;
    } else if e.Peek? || e.TryOwner? || e.DecideOwner? {
      ConsideringGoesOn(d, s, e);
      hide Next;
    } else {
      StageIsNoDecision(d, s, e);
      hide Next;
    }
  }

  lemma PastPeekHoldsSlot(d: Deployment, s: State, tx: TxId)
    requires LockTable(d, s) && tx in s.txs && PastPeek(s.txs[tx])
    ensures HoldsSlot(s.txs[tx])
  {
    assert LocksAre(d, s, tx);
    hide LocksOf, Awaited, WellFormed;
  }

  /**
   * The count a claim decides with covers its owner's executing runs, from the query on and for as long as the claim
   * lasts, exactly when no heartbeat since the query revives a lapsed lease of that owner at that count.
   */
  lemma {:induction false} CountIsNoUndercount(
    d: Deployment, plans: map<UserId, Limit>, steps: seq<Step>, tx: TxId, c: Candidate)
    requires IsRun(d, plans, steps) && c in PeekedBy(steps, tx)
    requires tx in After(d, plans, steps).txs && PastPeek(After(d, plans, steps).txs[tx])
    ensures NeverUndercounted(d, plans, steps, tx, c) <==> NoneOverfilled(d, plans, steps, tx, c)
    decreases |steps|
  {
    var before, e := steps[..|steps| - 1], steps[|steps| - 1];
    AlwaysClocks(d, plans, before);
    AlwaysLockTable(d, plans, before);
    AlwaysPromises(d, plans, before);
    hide LockTable, ClocksBehind, Promises, FreshRun, Next, OwnersNow, OverfillsOwner, PastPeek, HoldsSlot;
    var s := After(d, plans, before);
    if e.Peek? && e.tx == tx {
      PeekCounts(d, s, tx, e.candidates, c);
    } else {
      WasPastPeek(d, s, e, tx);
      CountIsNoUndercount(d, plans, before, tx, c);
      PastPeekHoldsSlot(d, s, tx);
      if NeverUndercounted(d, plans, before, tx, c) { NextOwned(d, s, e, tx, c); }
    }
  }

  // ---- What a claim commits -------------------------------------------------------------------

  lemma ClaimAddsOne(d: Deployment, s: State, tx: TxId)
    requires Enabled(d, s, Commit(tx)) && s.txs[tx].program.Claim? && OwnerIsRight(s, s.txs[tx].stage.candidate)
    ensures var t, c := Next(d, s, Commit(tx)), s.txs[tx].stage.candidate;
      t.plans == s.plans && OwnersNow(t, c) <= OwnersNow(s, c) + 1
  {
    hide Released;
    var t, c := Next(d, s, Commit(tx)), s.txs[tx].stage.candidate;
    assert OwnerExecuting(t, c.user, t.clock) <= OwnerExecuting(s, c.user, s.clock) + {c.run};
    SubsetSize(OwnerExecuting(t, c.user, t.clock), OwnerExecuting(s, c.user, s.clock) + {c.run});
  }

  /** What a claim is taking, its query returned. */
  lemma {:induction false} TakenWasPeeked(d: Deployment, plans: map<UserId, Limit>, steps: seq<Step>, tx: TxId)
    requires IsRun(d, plans, steps) && tx in After(d, plans, steps).txs && PastPeek(After(d, plans, steps).txs[tx])
    ensures forall c :: c in StillThere(After(d, plans, steps).txs[tx].stage) ==> c in PeekedBy(steps, tx)
    decreases |steps|
  {
    if steps != [] {
      var before, e := steps[..|steps| - 1], steps[|steps| - 1];
      var s := After(d, plans, before);
      if e.Peek? && e.tx == tx {
        PeekKeepsThere(d, s, e);
      } else {
        WasPastPeek(d, s, e, tx);
        TakenWasPeeked(d, plans, before, tx);
        NextKeepsThere(d, s, e, tx);
      }
    }
  }

  /** The candidates a claim has not gone past. */
  function StillThere(stage: Stage): seq<Candidate> {
    match stage
    case Considering(candidates, _, _) => candidates
    case Owning(candidates, _, _) => candidates
    case Taking(c, _) => [c]
    case _ => []
  }

  lemma PeekKeepsThere(d: Deployment, s: State, e: Step)
    requires Enabled(d, s, e) && e.Peek? && e.tx in Next(d, s, e).txs
    ensures StillThere(Next(d, s, e).txs[e.tx].stage) == e.candidates
  {
    hide Released, ArePeeked;
  }

  lemma ConsideredThere(s: State, tx: TxId, candidates: seq<Candidate>, passedOver: set<UserId>, owned: set<UserId>)
    requires tx in s.txs
    ensures var t := Considered(s, tx, candidates, passedOver, owned);
      tx in t.txs ==> StillThere(t.txs[tx].stage) == candidates
  {
    hide Released;
  }

  lemma LoopKeepsThere(d: Deployment, s: State, e: Step)
    requires Enabled(d, s, e) && (e.TryOwner? || e.DecideOwner?) && e.tx in Next(d, s, e).txs
    ensures forall c :: c in StillThere(Next(d, s, e).txs[e.tx].stage) ==> c in StillThere(s.txs[e.tx].stage)
  {
    hide Considered, Holds, Tried, OwnerScope, RowFree, WithinLimit, PlanOf;
    if e.TryOwner? {
      var Considering(candidates, passedOver, owned) := s.txs[e.tx].stage;
      ConsideredThere(s, e.tx, candidates[1..], passedOver, owned);
      ConsideredThere(s, e.tx, candidates[1..], passedOver + {candidates[0].user}, owned);
    } else {
      var Owning(candidates, passedOver, owned) := s.txs[e.tx].stage;
      ConsideredThere(s, e.tx, candidates[1..], passedOver, owned);
      ConsideredThere(s, e.tx, candidates[1..], passedOver + {candidates[0].user}, owned);
    }
  }

  lemma NextKeepsThere(d: Deployment, s: State, e: Step, tx: TxId)
    requires Enabled(d, s, e) && !(e.Peek? && e.tx == tx) && tx in s.txs && PastPeek(s.txs[tx])
    requires tx in Next(d, s, e).txs && PastPeek(Next(d, s, e).txs[tx])
    ensures forall c :: c in StillThere(Next(d, s, e).txs[tx].stage) ==> c in StillThere(s.txs[tx].stage)
  {
    if e.Commit? {
      PublishedLocks(s, e.tx);
      hide Published, Released, Committable;
    } else if IsStatement(e) || e.Tick? {
      StatementKeepsOwners(d, s, e);
      hide Next;
    } else if (e.TryOwner? || e.DecideOwner?) && e.tx == tx {
      LoopKeepsThere(d, s, e);
      hide Next;
    } else if e.Peek? || e.TryOwner? || e.DecideOwner? {
      ConsideringGoesOn(d, s, e);
      hide Next;
    } else {
      StageIsNoDecision(d, s, e);
      hide Next;
    }
  }

  /**
   * When a claim commits, its owner's executing runs are within the owner's plan as it then stands, provided no
   * heartbeat since the claim's query revived a lapsed lease of that owner at the count the claim read.
   */
  lemma ClaimsFitTheirOwners(d: Deployment, plans: map<UserId, Limit>, steps: seq<Step>, tx: TxId)
    requires IsRun(d, plans, steps)
    requires Enabled(d, After(d, plans, steps), Commit(tx)) && After(d, plans, steps).txs[tx].program.Claim?
    requires NoneOverfilled(d, plans, steps, tx, After(d, plans, steps).txs[tx].stage.candidate)
    ensures var s, t := After(d, plans, steps), Next(d, After(d, plans, steps), Commit(tx));
      var run := s.txs[tx].stage.candidate.run;
      && run in s.runs
      && var user := s.runs[run].user;
      PlanOf(t, user).Some? ==> |OwnerExecuting(t, user, t.clock)| <= PlanOf(t, user).value
  {
    var s := After(d, plans, steps);
    var c := s.txs[tx].stage.candidate;
    AlwaysDecided(d, plans, steps);
    AlwaysPromises(d, plans, steps);
    assert DecisionStands(s, tx) && Reserved(s, tx);
    TakenWasPeeked(d, plans, steps, tx);
    assert c in StillThere(s.txs[tx].stage);
    CountIsNoUndercount(d, plans, steps, tx, c);
    assert NeverUndercounted(d, plans, steps, tx, c) ==> OwnersNow(s, c) <= c.ownerRunning;
    ClaimAddsOne(d, s, tx);
    SamePlans(s, Next(d, s, Commit(tx)));
  }
}
