/** What becomes of a run in the queue: how its job moves from step to step, and what no run of the system undoes. */
module QueueLifecycle {
  import opened Limits
  import opened LockQueues
  import opened BacktestQueue
  import opened QueueLocks
  import opened QueueCapacity

  /** A queued job is claimed by the commit of a claim, or closed. */
  ghost predicate MovesFromQueue(s: State, e: Step, r: RunId, after: Job) {
    || after == Queued
    || (after == Closed && e == CloseQueued(r))
    || (e.Commit? && e.tx in s.txs && s.txs[e.tx].program.Claim?
        && after == Claimed(s.txs[e.tx].program.worker, s.txs[e.tx].program.now + s.txs[e.tx].program.leaseMs))
  }

  /**
   * A claimed job is renewed, released or finished by the worker that claimed it and by nobody else, and requeued or
   * expired only once its lease has run out.
   */
  ghost predicate MovesFromClaim(s: State, e: Step, r: RunId, worker: WorkerId, lease: nat, after: Job) {
    || after == Claimed(worker, lease)
    || (e.Heartbeat? && e.run == r && e.worker == worker && after == Claimed(worker, e.now + e.leaseMs))
    || (after == Queued && e == Release(r, worker))
    || (after == Closed && e == Finish(r, worker))
    || (after == Queued && e.Requeue? && e.run == r && lease < e.now <= s.clock)
    || (after == Closed && e.Expire? && e.run == r && lease < e.now <= s.clock)
  }

  ghost predicate Moves(s: State, e: Step, r: RunId, before: Job, after: Job) {
    match before
    case Queued => MovesFromQueue(s, e, r, after)
    case Claimed(worker, lease) => MovesFromClaim(s, e, r, worker, lease, after)
    case Closed => after == Closed
  }

  /** A statement on a job does what it is for. */
  ghost predicate Serves(e: Step, after: Job) {
    && (e.Finish? || e.Expire? || e.CloseQueued? ==> after == Closed)
    && (e.Release? || e.Requeue? ==> after == Queued)
    && (e.Heartbeat? ==> after == Claimed(e.worker, e.now + e.leaseMs))
  }

  /** From `s` to `t` a run keeps its owner and its number, and its job moves as the step allows. */
  ghost predicate GoesOn(s: State, e: Step, t: State, r: RunId)
    requires r in s.runs && r in t.runs
  {
    && t.runs[r].user == s.runs[r].user && t.runs[r].number == s.runs[r].number
    && Moves(s, e, r, s.runs[r].job, t.runs[r].job)
    && (IsStatement(e) && e.run == r ==> Serves(e, t.runs[r].job))
  }

  lemma StatementMoves(d: Deployment, s: State, e: Step, r: RunId)
    requires Enabled(d, s, e) && (IsStatement(e) || e.Tick?) && r in s.runs && r in Next(d, s, e).runs
    ensures GoesOn(s, e, Next(d, s, e), r)
  {
    hide RowFree;
  }

  lemma CommitMoves(d: Deployment, s: State, tx: TxId, r: RunId)
    requires Promises(s) && FreshRun(s) && Enabled(d, s, Commit(tx)) && r in s.runs
    ensures r in Next(d, s, Commit(tx)).runs && GoesOn(s, Commit(tx), Next(d, s, Commit(tx)), r)
  {
    assert Reserved(s, tx);
    hide Promises, Released, Holds, OwnerScope;
  }

  /** A step that a run survives moves it as allowed, and what is deleted is deleted by that statement alone. */
  lemma NextGoesOn(d: Deployment, s: State, e: Step, r: RunId)
    requires Promises(s) && FreshRun(s) && Enabled(d, s, e) && r in s.runs
    ensures r !in Next(d, s, e).runs <==> e == Delete(r)
    ensures r in Next(d, s, e).runs ==> GoesOn(s, e, Next(d, s, e), r)
  {
    hide Next, Enabled, Promises, FreshRun, MovesFromQueue, MovesFromClaim;
    if e.Commit? {
      CommitMoves(d, s, e.tx, r);
    } else if e.Tick? || IsStatement(e) {
      OnlyDeleteRemoves(d, s, e, r);
      if r in Next(d, s, e).runs { StatementMoves(d, s, e, r); }
    } else {
      OnlyCommitPublishes(d, s, e);
      StaysAsItWas(s, e, Next(d, s, e), r);
    }
  }

  lemma OnlyDeleteRemoves(d: Deployment, s: State, e: Step, r: RunId)
    requires Enabled(d, s, e) && (IsStatement(e) || e.Tick?) && r in s.runs
    ensures r !in Next(d, s, e).runs <==> e == Delete(r)
  {
    hide RowFree;
  }

  lemma StaysAsItWas(s: State, e: Step, t: State, r: RunId)
    requires r in s.runs && t.runs == s.runs && !IsStatement(e)
    ensures GoesOn(s, e, t, r)
  {
  }

  /** In every run, each step moves each run it leaves in place as the lifecycle allows. */
  lemma JobsMove(d: Deployment, plans: map<UserId, Limit>, steps: seq<Step>, e: Step, r: RunId)
    requires IsRun(d, plans, steps) && Enabled(d, After(d, plans, steps), e) && r in After(d, plans, steps).runs
    ensures var s := After(d, plans, steps);
      && (r !in Next(d, s, e).runs <==> e == Delete(r))
      && (r in Next(d, s, e).runs ==> GoesOn(s, e, Next(d, s, e), r))
  {
    AlwaysPromises(d, plans, steps);
    hide Promises, FreshRun, GoesOn, Next, Enabled;
    NextGoesOn(d, After(d, plans, steps), e, r);
  }

  /** The worker of a claim may always act on it, and anyone may recover it once its lease is past. */
  lemma ClaimStaysOpen(d: Deployment, s: State, r: RunId, worker: WorkerId, lease: nat, leaseMs: nat)
    requires r in s.runs && s.runs[r].job == Claimed(worker, lease)
    ensures Enabled(d, s, Heartbeat(r, worker, s.clock, leaseMs))
    ensures Enabled(d, s, Finish(r, worker)) && Enabled(d, s, Release(r, worker))
    ensures lease < s.clock <==> Enabled(d, s, Requeue(r, s.clock))
    ensures lease < s.clock <==> Enabled(d, s, Expire(r, s.clock))
    ensures forall other :: other != worker ==>
      !Enabled(d, s, Heartbeat(r, other, s.clock, leaseMs)) && !Enabled(d, s, Finish(r, other)) && !Enabled(d, s, Release(r, other))
  {
    hide RowFree;
  }

  /** What is known of a run for good: its owner, its number, that it is closed, or that it is gone. */
  ghost predicate KeptForGood(s: State, t: State, r: RunId) {
    && s.nextRun <= t.nextRun
    && (r < s.nextRun && r in t.runs ==>
      && r in s.runs && t.runs[r].user == s.runs[r].user && t.runs[r].number == s.runs[r].number
      && (s.runs[r].job.Closed? ==> t.runs[r].job.Closed?))
  }

  lemma NextKeepsForGood(d: Deployment, s: State, e: Step, r: RunId)
    requires Promises(s) && FreshRun(s) && Enabled(d, s, e)
    ensures KeptForGood(s, Next(d, s, e), r)
  {
    NextRunGrows(d, s, e);
    hide Next, Enabled, Promises, FreshRun, Serves, MovesFromQueue, MovesFromClaim;
    if r in s.runs { NextGoesOn(d, s, e, r); }
  }

  lemma NextRunGrows(d: Deployment, s: State, e: Step)
    requires Enabled(d, s, e)
    ensures s.nextRun <= Next(d, s, e).nextRun
    ensures forall r :: r in Next(d, s, e).runs && r < s.nextRun ==> r in s.runs
  {
    if e.Commit? {
      hide Released, Holds, OwnerScope;
    } else if e.Tick? || IsStatement(e) {
      hide RowFree;
    } else {
      OnlyCommitPublishes(d, s, e);
      hide Next, Enabled;
    }
  }

  /** No continuation of a run reopens a closed run, gives a run another owner or number, or brings back a deleted one. */
  lemma {:induction false} NothingUndone(d: Deployment, plans: map<UserId, Limit>, steps: seq<Step>, i: nat, r: RunId)
    requires IsRun(d, plans, steps) && i <= |steps|
    ensures IsRun(d, plans, steps[..i]) && KeptForGood(After(d, plans, steps[..i]), After(d, plans, steps), r)
    decreases |steps|
  {
    if i == |steps| {
      assert steps[..i] == steps;
      AlwaysPromises(d, plans, steps);
    } else {
      var before := steps[..|steps| - 1];
      assert before[..i] == steps[..i];
      NothingUndone(d, plans, before, i, r);
      AlwaysPromises(d, plans, before);
      hide Promises, FreshRun, Next, Enabled;
      NextKeepsForGood(d, After(d, plans, before), steps[|steps| - 1], r);
    }
  }
}
