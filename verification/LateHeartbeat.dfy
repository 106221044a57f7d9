/** Runs in which a late heartbeat takes the deployment past its cap, and an owner past the owner's plan. */
module LateHeartbeat {
  import opened Wrappers
  import opened Limits
  import opened LockQueues
  import opened BacktestQueue
  import opened SoloRuns

  const UNLIMITED: map<UserId, Limit> := map[1 := None, 2 := None]

  lemma Unlimited(s: State)
    requires s.plans == UNLIMITED
    ensures PlanOf(s, 1) == None && PlanOf(s, 2) == None
  {
  }

  /** The runs of users `a` and `b`, with their jobs. */
  ghost predicate TwoRuns(s: State, a: UserId, b: UserId, first: Job, second: Job) {
    && s.runs.Keys == {0, 1}
    && s.runs[0].user == a && s.runs[0].job == first
    && s.runs[1].user == b && s.runs[1].job == second
  }

  /** The second of two submissions. */
  lemma SecondQueued(d: Deployment, s: State, a: UserId, b: UserId) returns (t: State)
    requires Idle(s) && PlanOf(s, b) == None && s.nextRun == 1
    requires s.runs.Keys == {0} && s.runs[0].user == a && s.runs[0].job == Queued
    ensures Leads(d, s, SubmitSteps(b), t) && Idle(t)
    ensures t.plans == s.plans && t.clock == s.clock && TwoRuns(t, a, b, Queued, Queued)
  {
    hide Leads, Idle, SubmitSteps, NextNumber;
    t := SubmitLeads(d, s, b);
    assert t.runs.Keys == s.runs.Keys + {1};
  }

  /** Two submissions, one after the other. */
  lemma BothQueued(d: Deployment, a: UserId, b: UserId) returns (t: State)
    requires (a == 1 || a == 2) && (b == 1 || b == 2)
    ensures IsRun(d, UNLIMITED, SubmitSteps(a) + SubmitSteps(b))
    ensures After(d, UNLIMITED, SubmitSteps(a) + SubmitSteps(b)) == t
    ensures Idle(t) && t.plans == UNLIMITED && t.clock == 0 && TwoRuns(t, a, b, Queued, Queued)
  {
    var s0 := Initial(UNLIMITED);
    Unlimited(s0);
    assert IsRun(d, UNLIMITED, []) && After(d, UNLIMITED, []) == s0;
    hide Next, Enabled, SubmitSteps, Leads, NextNumber, PlanOf, TwoRuns;
    var s1 := SubmitLeads(d, s0, a);
    assert s1.runs.Keys == {0};
    Unlimited(s1);
    t := SecondQueued(d, s1, a, b);
    RunGoesOn(d, UNLIMITED, [], SubmitSteps(a), s1);
    assert [] + SubmitSteps(a) == SubmitSteps(a);
    RunGoesOn(d, UNLIMITED, SubmitSteps(a), SubmitSteps(b), t);
  }

  lemma NoneExecuting(s: State, a: UserId, b: UserId, first: Job)
    requires TwoRuns(s, a, b, first, Queued) && (first.Claimed? ==> first.lease <= s.clock)
    ensures Executing(s, s.clock) == {} && 0 in s.runs && 1 in s.runs
  {
  }

  /** Worker 7 claims the first run with a lease of 60 and stalls past it. */
  function StallSteps(a: UserId): seq<Step> { ClaimSteps(0, a, 7, 0, 60) + [Tick(61)] }

  lemma StallLeads(d: Deployment, s: State, a: UserId, b: UserId) returns (t: State)
    requires Idle(s) && s.clock == 0 && TwoRuns(s, a, b, Queued, Queued)
    requires WithinLimit(d.globalMaxRunning, 1) && WithinLimit(PlanOf(s, a), 1)
    ensures Leads(d, s, StallSteps(a), t) && Idle(t)
    ensures t.clock == 61 && t.plans == s.plans && TwoRuns(t, a, b, Claimed(7, 60), Queued)
  {
    NoneExecuting(s, a, b, Queued);
    hide ClaimSteps, Leads, Idle, Goes, Executing, PlanOf;
    var s1 := ClaimLeads(d, s, 0, 7, 60);
    t := s1.(clock := s1.clock + 61);
    TickAlone(d, s1, 61);
    OneLeads(d, s1, Tick(61), t);
    LeadsOn(d, s, ClaimSteps(0, a, 7, 0, 60), s1, [Tick(61)], t);
  }

  const LATE := Heartbeat(0, 7, 61, 60)

  // ---- The deployment's cap -------------------------------------------------------------------

  /** Worker 7 renews its lease once worker 8 has been given the only slot. */
  function LateSteps(): seq<Step> {
    SubmitSteps(1) + SubmitSteps(2) + (StallSteps(1) + (ClaimSteps(1, 2, 8, 61, 60) + [LATE]))
  }

  lemma LateRenewal(d: Deployment, s: State) returns (t: State)
    requires TwoRuns(s, 1, 2, Claimed(7, 60), Claimed(8, 121)) && s.clock == 61
    ensures Goes(d, s, LATE, t) && Executing(t, t.clock) == {0, 1}
  {
    t := WithJob(s, 0, Claimed(7, 121));
  }

  /** With a cap of one, two claims end up holding live leases. */
  lemma LateHeartbeatExceedsCap(hashtext: UserId -> int)
    ensures var d := Deployment(hashtext, Some(1));
      && IsRun(d, UNLIMITED, LateSteps())
      && var s := After(d, UNLIMITED, LateSteps());
      Executing(s, s.clock) == {0, 1} && |Executing(s, s.clock)| > 1
  {
    hide SubmitSteps, ClaimSteps, StallSteps, Leads, Goes, Executing, Next, Enabled, Idle, PlanOf, IsRun, After;
    var d := Deployment(hashtext, Some(1));
    var s := BothQueued(d, 1, 2);
    Unlimited(s);
    var s1 := StallLeads(d, s, 1, 2);
    Unlimited(s1);
    NoneExecuting(s1, 1, 2, Claimed(7, 60));
    var s2 := ClaimLeads(d, s1, 1, 8, 60);
    var t := LateRenewal(d, s2);
    OneLeads(d, s2, LATE, t);
    LeadsOn(d, s1, ClaimSteps(1, 2, 8, 61, 60), s2, [LATE], t);
    LeadsOn(d, s, StallSteps(1), s1, ClaimSteps(1, 2, 8, 61, 60) + [LATE], t);
    RunGoesOn(d, UNLIMITED, SubmitSteps(1) + SubmitSteps(2), StallSteps(1) + (ClaimSteps(1, 2, 8, 61, 60) + [LATE]), t);
  }

  // ---- An owner's plan ------------------------------------------------------------------------

  /**
   * User 1 submits two runs and is then limited to one. Worker 7 claims the first and stalls; worker 8's claim counts
   * nothing executing for the user and decides on the second run; worker 7 renews its lease; worker 8 commits.
   */
  function OwnerSteps(): seq<Step> {
    SubmitSteps(1) + SubmitSteps(1)
      + (ChangeSteps(1, Some(1)) + (StallSteps(1) + (DecideSteps(1, 1, 8, 61, 60) + ([LATE] + [Commit(0)]))))
  }

  /** The candidate worker 8 decides on, with the count its query read. */
  const SECOND := Candidate(1, 1, 0)

  lemma RenewedInBetween(d: Deployment, s: State, locks: Locks) returns (u: State, t: State)
    requires TwoRuns(s, 1, 1, Claimed(7, 60), Queued) && s.clock == 61 && PlanOf(s, 1) == Some(1) && OnlyZero(locks)
    ensures Goes(d, AboutToTake(s, 1, 8, 60, locks), LATE, u) && Goes(d, u, Commit(0), t)
    ensures OwnerExecuting(t, 1, t.clock) == {0, 1} && PlanOf(t, 1) == Some(1)
  {
    var p := Claim(8, 61, 60);
    var renewed := WithJob(s, 0, Claimed(7, 121));
    u := AboutToTake(renewed, 1, 8, 60, locks);
    assert u == Solo(renewed, p, Taking(SECOND, {1}), locks);
    Renews(d, s, locks);
    t := Ended(Solo(WithJob(renewed, 1, Claimed(8, 121)), p, Taking(SECOND, {1}), locks), 0);
    ClaimCommits(d, renewed, p, SECOND, locks);
    hide Goes, Released;
    assert t.runs == renewed.runs[1 := renewed.runs[1].(job := Claimed(8, 121))];
  }

  lemma Renews(d: Deployment, s: State, locks: Locks)
    requires TwoRuns(s, 1, 1, Claimed(7, 60), Queued) && s.clock == 61
    ensures Goes(d, AboutToTake(s, 1, 8, 60, locks), LATE, AboutToTake(WithJob(s, 0, Claimed(7, 121)), 1, 8, 60, locks))
  {
  }

  /** A claim's commit leaves an owner limited to one run with two executing, although no cap is set. */
  lemma LateHeartbeatExceedsPlan(hashtext: UserId -> int)
    ensures var d := Deployment(hashtext, None);
      && IsRun(d, UNLIMITED, OwnerSteps())
      && var s := After(d, UNLIMITED, OwnerSteps());
      OwnerExecuting(s, 1, s.clock) == {0, 1} && PlanOf(s, 1) == Some(1)
  {
    hide SubmitSteps, ChangeSteps, StallSteps, DecideSteps, Leads, Goes, OwnerExecuting, Executing, Next, Enabled, Idle,
      AboutToTake, IsRun, After;
    var d := Deployment(hashtext, None);
    var s := BothQueued(d, 1, 1);
    var s1 := ChangeLeads(d, s, 1, Some(1));
    assert PlanOf(s1, 1) == Some(1);
    var s2 := StallLeads(d, s1, 1, 1);
    assert PlanOf(s2, 1) == Some(1);
    NoneExecuting(s2, 1, 1, Claimed(7, 60));
    var locks := DecideLeads(d, s2, 1, 8, 60);
    var s3 := AboutToTake(s2, 1, 8, 60, locks);
    var s4, t := RenewedInBetween(d, s2, locks);
    assert |OwnerExecuting(t, 1, t.clock)| == 2;
    OneLeads(d, s3, LATE, s4);
    OneLeads(d, s4, Commit(0), t);
    LeadsOn(d, s3, [LATE], s4, [Commit(0)], t);
    LeadsOn(d, s2, DecideSteps(1, 1, 8, 61, 60), s3, [LATE] + [Commit(0)], t);
    LeadsOn(d, s1, StallSteps(1), s2, DecideSteps(1, 1, 8, 61, 60) + ([LATE] + [Commit(0)]), t);
    LeadsOn(d, s, ChangeSteps(1, Some(1)), s1, StallSteps(1) + (DecideSteps(1, 1, 8, 61, 60) + ([LATE] + [Commit(0)])), t);
    RunGoesOn(d, UNLIMITED, SubmitSteps(1) + SubmitSteps(1),
              ChangeSteps(1, Some(1)) + (StallSteps(1) + (DecideSteps(1, 1, 8, 61, 60) + ([LATE] + [Commit(0)]))), t);
  }
}
