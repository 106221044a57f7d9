/** Runs in which one transaction at a time goes through, for building reachable states. */
module SoloRuns {
  import opened Wrappers
  import opened Limits
  import opened LockQueues
  import opened BacktestQueue

  // ---- Sequences of steps ---------------------------------------------------------------------

  ghost predicate Goes(d: Deployment, s: State, e: Step, t: State) { Enabled(d, s, e) && Next(d, s, e) == t }

  /** The steps are enabled one after the other and lead from `s` to `t`. */
  ghost predicate Leads(d: Deployment, s: State, steps: seq<Step>, t: State)
    decreases steps
  {
    if steps == [] then s == t else Enabled(d, s, steps[0]) && Leads(d, Next(d, s, steps[0]), steps[1..], t)
  }

  lemma {:induction false} RunGoesOn(d: Deployment, plans: map<UserId, Limit>, before: seq<Step>, steps: seq<Step>, t: State)
    requires IsRun(d, plans, before) && Leads(d, After(d, plans, before), steps, t)
    ensures IsRun(d, plans, before + steps) && After(d, plans, before + steps) == t
    decreases |steps|
  {
    hide Enabled, Next;
    if steps == [] {
      assert before + steps == before;
    } else {
      var one := before + [steps[0]];
      assert one[..|one| - 1] == before;
      RunGoesOn(d, plans, one, steps[1..], t);
      assert before + steps == one + steps[1..];
    }
  }

  lemma {:induction false} LeadsOn(d: Deployment, s: State, a: seq<Step>, t: State, b: seq<Step>, u: State)
    requires Leads(d, s, a, t) && Leads(d, t, b, u)
    ensures Leads(d, s, a + b, u)
    decreases a
  {
    hide Enabled, Next;
    if a == [] {
      assert a + b == b;
    } else {
      LeadsOn(d, Next(d, s, a[0]), a[1..], t, b, u);
      assert (a + b)[1..] == a[1..] + b;
    }
  }

  lemma OneLeads(d: Deployment, s: State, e: Step, t: State)
    requires Goes(d, s, e, t)
    ensures Leads(d, s, [e], t)
  {
    hide Enabled, Next;
    assert [e][1..] == [];
  }

  lemma ThreeLead(d: Deployment, s0: State, e0: Step, s1: State, e1: Step, s2: State, e2: Step, s3: State)
    requires Goes(d, s0, e0, s1) && Goes(d, s1, e1, s2) && Goes(d, s2, e2, s3)
    ensures Leads(d, s0, [e0, e1, e2], s3)
  {
    hide Goes, Leads;
    OneLeads(d, s0, e0, s1);
    OneLeads(d, s1, e1, s2);
    OneLeads(d, s2, e2, s3);
    LeadsOn(d, s1, [e1], s2, [e2], s3);
    LeadsOn(d, s0, [e0], s1, [e1] + [e2], s3);
    assert [e0] + ([e1] + [e2]) == [e0, e1, e2];
  }

  // ---- One transaction at a time --------------------------------------------------------------

  /** No transaction is under way. */
  ghost predicate Idle(s: State) { s.txs == map[] && forall l :: Queue(s.locks, l) == [] }

  /** Transaction 0 alone, at a stage, with the locks it has been granted. */
  function Solo(s: State, p: Program, stage: Stage, locks: Locks): State {
    s.(txs := map[0 := Tx(p, stage)], locks := locks)
  }

  function Granted(locks: Locks, l: LockId): Locks { locks[l := [0]] }

  /** Every queue is empty or holds transaction 0 alone. */
  ghost predicate OnlyZero(locks: Locks) { forall l :: Queue(locks, l) == [] || Queue(locks, l) == [0] }

  lemma GrantedIs(locks: Locks, l: LockId)
    requires OnlyZero(locks) && Queue(locks, l) == []
    ensures Requested(locks, 0, l) == Granted(locks, l) == Tried(locks, 0, l)
    ensures Holds(Granted(locks, l), 0, l) && OnlyZero(Granted(locks, l))
    ensures forall k :: k != l ==> Queue(Granted(locks, l), k) == Queue(locks, k)
  {
    assert Queue(locks, l) + [0] == [0];
    forall k ensures Queue(Granted(locks, l), k) == [] || Queue(Granted(locks, l), k) == [0] {
      assert Queue(locks, k) == [] || Queue(locks, k) == [0];
    }
  }

  lemma IdleLocks(s: State)
    requires Idle(s)
    ensures OnlyZero(s.locks) && forall l :: Queue(s.locks, l) == []
  {
  }

  lemma BeginAlone(d: Deployment, s: State, p: Program)
    requires Idle(s) && (p.Claim? ==> p.now <= s.clock)
    ensures Goes(d, s, Begin(0, p), Solo(s, p, Begun, s.locks))
  {
  }

  lemma EndsIdle(s: State, p: Program, stage: Stage, locks: Locks)
    requires OnlyZero(locks)
    ensures Idle(Ended(Solo(s, p, stage, locks), 0))
  {
    var t := Ended(Solo(s, p, stage, locks), 0);
    forall l ensures Queue(t.locks, l) == [] {
      assert Queue(locks, l) == [] || Queue(locks, l) == [0];
      assert Without([0], 0) == [] by { assert [0][1..] == []; }
    }
  }

  lemma TickAlone(d: Deployment, s: State, ms: nat)
    requires Idle(s)
    ensures Goes(d, s, Tick(ms), s.(clock := s.clock + ms)) && Idle(s.(clock := s.clock + ms))
  {
    IdleLocks(s);
  }

  // ---- A submission ---------------------------------------------------------------------------

  lemma SubmitRequestsOwner(d: Deployment, s: State, user: UserId, locks: Locks)
    requires OnlyZero(locks) && Queue(locks, OwnerScope(d, user)) == []
    ensures Goes(d, Solo(s, Submit(user), Begun, locks), RequestOwner(0),
                 Solo(s, Submit(user), OwnerLock, Granted(locks, OwnerScope(d, user))))
  {
    GrantedIs(locks, OwnerScope(d, user));
    hide OwnerScope, Requested, Granted, Holds, OnlyZero;
  }

  lemma SubmitReadsPlan(d: Deployment, s: State, user: UserId, locks: Locks)
    requires Holds(locks, 0, OwnerScope(d, user))
    ensures Goes(d, Solo(s, Submit(user), OwnerLock, locks), ReadPlan(0),
                 Solo(s, Submit(user), Planned(PlanOf(s, user)), locks))
  {
    hide OwnerScope, Holds;
  }

  /** The user has a plan with room for one more run: no limit, or fewer runs in flight than it. */
  ghost predicate HasRoom(s: State, user: UserId) {
    user in s.plans &&
    (s.plans[user].None?
     || |set r | r in s.runs && s.runs[r].user == user && (s.runs[r].job.Queued? || s.runs[r].job.Claimed?)|
        < s.plans[user].value)
  }

  lemma InFlightAre(s: State, user: UserId)
    ensures InFlight(s, user)
         == set r | r in s.runs && s.runs[r].user == user && (s.runs[r].job.Queued? || s.runs[r].job.Claimed?)
  {
  }

  lemma SubmitCounts(d: Deployment, s: State, user: UserId, locks: Locks)
    ensures var counting := Solo(s, Submit(user), Planned(PlanOf(s, user)), locks);
      Goes(d, counting, CountInFlight(0), if HasRoom(s, user) then Solo(s, Submit(user), Admitted, locks) else Ended(counting, 0))
  {
    InFlightAre(s, user);
    var counting := Solo(s, Submit(user), Planned(PlanOf(s, user)), locks);
    assert InFlight(counting, user) == InFlight(s, user);
    hide InFlight, Ended, PlanOf;
  }

  lemma SubmitRequestsCounter(d: Deployment, s: State, user: UserId, locks: Locks)
    requires OnlyZero(locks) && Queue(locks, CounterRow(user)) == []
    ensures Goes(d, Solo(s, Submit(user), Admitted, locks), RequestCounter(0),
                 Solo(s, Submit(user), CounterLock, Granted(locks, CounterRow(user))))
  {
    GrantedIs(locks, CounterRow(user));
    hide OwnerScope, Requested, Granted, Holds, OnlyZero;
  }

  lemma SubmitAllocates(d: Deployment, s: State, user: UserId, locks: Locks)
    requires Holds(locks, 0, CounterRow(user))
    ensures Goes(d, Solo(s, Submit(user), CounterLock, locks), AllocateNumber(0),
                 Solo(s, Submit(user), Numbered(NextNumber(s.counters, user)), locks))
  {
    hide Holds, NextNumber;
  }

  lemma SubmitCommits(d: Deployment, s: State, user: UserId, number: nat, locks: Locks)
    ensures Goes(d, Solo(s, Submit(user), Numbered(number), locks), Commit(0),
                 Ended(Solo(WithNewRun(s, user, number, Queued), Submit(user), Numbered(number), locks), 0))
  {
    hide Released;
  }

  /** The steps that lead to the decision: the plan is read and the runs are counted under the owner's lock. */
  function AskSteps(user: UserId): seq<Step> {
    [Begin(0, Submit(user))] + [RequestOwner(0), ReadPlan(0), CountInFlight(0)]
  }

  function SubmitSteps(user: UserId): seq<Step> { AskSteps(user) + [RequestCounter(0), AllocateNumber(0), Commit(0)] }

  lemma AskLeads(d: Deployment, s: State, user: UserId) returns (locks: Locks)
    requires Idle(s)
    ensures OnlyZero(locks) && Queue(locks, CounterRow(user)) == []
    ensures Leads(d, s, AskSteps(user),
                  if HasRoom(s, user) then Solo(s, Submit(user), Admitted, locks)
                  else Ended(Solo(s, Submit(user), Planned(PlanOf(s, user)), locks), 0))
  {
    var p := Submit(user);
    locks := Granted(s.locks, OwnerScope(d, user));
    IdleLocks(s);
    BeginAlone(d, s, p);
    GrantedIs(s.locks, OwnerScope(d, user));
    hide Goes, Leads, Granted, OwnerScope, Idle, OnlyZero, Holds, HasRoom;
    SubmitRequestsOwner(d, s, user, s.locks);
    SubmitReadsPlan(d, s, user, locks);
    SubmitCounts(d, s, user, locks);
    var begun, counting := Solo(s, p, Begun, s.locks), Solo(s, p, Planned(PlanOf(s, user)), locks);
    var t := if HasRoom(s, user) then Solo(s, p, Admitted, locks) else Ended(counting, 0);
    OneLeads(d, s, Begin(0, p), begun);
    ThreeLead(d, begun, RequestOwner(0), Solo(s, p, OwnerLock, locks), ReadPlan(0), counting, CountInFlight(0), t);
    hide Solo, Ended, PlanOf;
    LeadsOn(d, s, [Begin(0, p)], begun, [RequestOwner(0), ReadPlan(0), CountInFlight(0)], t);
  }

  /** Alone, a submission with room goes through. */
  lemma SubmitLeads(d: Deployment, s: State, user: UserId) returns (t: State)
    requires Idle(s) && HasRoom(s, user)
    ensures Leads(d, s, SubmitSteps(user), t) && Idle(t)
    ensures t.runs == s.runs[s.nextRun := Run(user, NextNumber(s.counters, user), Queued)] && t.nextRun == s.nextRun + 1
    ensures t.counters == s.counters[user := NextNumber(s.counters, user)]
    ensures t.clock == s.clock && t.plans == s.plans
  {
    var p, n := Submit(user), NextNumber(s.counters, user);
    var one := AskLeads(d, s, user);
    var two := Granted(one, CounterRow(user));
    GrantedIs(one, CounterRow(user));
    EndsIdle(WithNewRun(s, user, n, Queued), p, Numbered(n), two);
    t := Ended(Solo(WithNewRun(s, user, n, Queued), p, Numbered(n), two), 0);
    hide Goes, Leads, Granted, Idle, OnlyZero, Holds, HasRoom, AskSteps;
    SubmitRequestsCounter(d, s, user, one);
    SubmitAllocates(d, s, user, two);
    SubmitCommits(d, s, user, n, two);
    var s1 := Solo(s, p, Admitted, one);
    ThreeLead(d, s1, RequestCounter(0), Solo(s, p, CounterLock, two), AllocateNumber(0), Solo(s, p, Numbered(n), two), Commit(0), t);
    hide Solo, Ended;
    LeadsOn(d, s, AskSteps(user), s1, [RequestCounter(0), AllocateNumber(0), Commit(0)], t);
  }

  /** Alone, a submission without room is refused and leaves nothing behind. */
  lemma RefusalLeads(d: Deployment, s: State, user: UserId) returns (t: State)
    requires Idle(s) && !HasRoom(s, user)
    ensures Leads(d, s, AskSteps(user), t) && Idle(t) && SameCommitted(s, t)
  {
    var locks := AskLeads(d, s, user);
    EndsIdle(s, Submit(user), Planned(PlanOf(s, user)), locks);
    t := Ended(Solo(s, Submit(user), Planned(PlanOf(s, user)), locks), 0);
    hide Leads, Idle, HasRoom, AskSteps, PlanOf;
  }

  // ---- A plan change --------------------------------------------------------------------------

  lemma ChangeRequestsOwner(d: Deployment, s: State, user: UserId, limit: Limit, locks: Locks)
    requires OnlyZero(locks) && Queue(locks, OwnerScope(d, user)) == []
    ensures Goes(d, Solo(s, ChangePlan(user, limit), Begun, locks), RequestOwner(0),
                 Solo(s, ChangePlan(user, limit), OwnerLock, Granted(locks, OwnerScope(d, user))))
  {
    GrantedIs(locks, OwnerScope(d, user));
    hide OwnerScope, Requested, Granted, Holds, OnlyZero;
  }

  lemma ChangeCommits(d: Deployment, s: State, user: UserId, limit: Limit, locks: Locks)
    requires Holds(locks, 0, OwnerScope(d, user))
    ensures Goes(d, Solo(s, ChangePlan(user, limit), OwnerLock, locks), Commit(0),
                 Ended(Solo(s.(plans := s.plans[user := limit]), ChangePlan(user, limit), OwnerLock, locks), 0))
  {
    hide OwnerScope, Holds, Released;
  }

  function ChangeSteps(user: UserId, limit: Limit): seq<Step> {
    [Begin(0, ChangePlan(user, limit)), RequestOwner(0), Commit(0)]
  }

  /** Alone, a plan change goes through. */
  lemma ChangeLeads(d: Deployment, s: State, user: UserId, limit: Limit) returns (t: State)
    requires Idle(s)
    ensures Leads(d, s, ChangeSteps(user, limit), t) && Idle(t)
    ensures t.plans == s.plans[user := limit] && t.runs == s.runs && t.clock == s.clock && t.nextRun == s.nextRun
  {
    var p, held := ChangePlan(user, limit), Granted(s.locks, OwnerScope(d, user));
    IdleLocks(s);
    BeginAlone(d, s, p);
    GrantedIs(s.locks, OwnerScope(d, user));
    EndsIdle(s.(plans := s.plans[user := limit]), p, OwnerLock, held);
    t := Ended(Solo(s.(plans := s.plans[user := limit]), p, OwnerLock, held), 0);
    hide Goes, Leads, Granted, OwnerScope, Idle, OnlyZero, Holds;
    ChangeRequestsOwner(d, s, user, limit, s.locks);
    ChangeCommits(d, s, user, limit, held);
    ThreeLead(d, s, Begin(0, p), Solo(s, p, Begun, s.locks), RequestOwner(0), Solo(s, p, OwnerLock, held), Commit(0), t);
  }

  // ---- A claim --------------------------------------------------------------------------------

  lemma SameExecuting(s: State, t: State, now: nat)
    requires t.runs == s.runs
    ensures Executing(t, now) == Executing(s, now)
    ensures forall user :: OwnerExecuting(t, user, now) == OwnerExecuting(s, user, now)
  {
  }

  lemma ClaimRequestsAdmission(d: Deployment, s: State, p: Program, locks: Locks)
    requires p.Claim? && OnlyZero(locks) && Queue(locks, Admission) == []
    ensures Goes(d, Solo(s, p, Begun, locks), RequestAdmission(0),
                 Solo(s, p, AdmissionLock, Granted(locks, Admission)))
  {
    GrantedIs(locks, Admission);
    hide Requested, Granted, Holds, OnlyZero;
  }

  /** The deployment has a slot left: no cap, or fewer live leases than it. */
  ghost predicate SlotLeft(d: Deployment, s: State, now: nat) {
    d.globalMaxRunning.None?
    || |set r | r in s.runs && s.runs[r].job.Claimed? && now < s.runs[r].job.lease| < d.globalMaxRunning.value
  }

  /** The owner has a plan to run one more: no limit, or fewer live leases of the owner than it. */
  ghost predicate OwnerHasSlot(s: State, user: UserId, now: nat) {
    user in s.plans &&
    (s.plans[user].None?
     || |set r | r in s.runs && s.runs[r].user == user && s.runs[r].job.Claimed? && now < s.runs[r].job.lease|
        < s.plans[user].value)
  }

  lemma ExecutingAre(s: State, now: nat)
    ensures Executing(s, now) == set r | r in s.runs && s.runs[r].job.Claimed? && now < s.runs[r].job.lease
    ensures forall user ::
      OwnerExecuting(s, user, now)
      == set r | r in s.runs && s.runs[r].user == user && s.runs[r].job.Claimed? && now < s.runs[r].job.lease
  {
  }

  lemma CountsAlone(d: Deployment, s: State, p: Program, locks: Locks)
    requires p.Claim? && Holds(locks, 0, Admission)
    ensures var asked := Solo(s, p, AdmissionLock, locks);
      Goes(d, asked, CountExecuting(0), if SlotLeft(d, s, p.now) then Solo(s, p, SlotFree, locks) else Ended(asked, 0))
  {
    var asked := Solo(s, p, AdmissionLock, locks);
    ExecutingAre(s, p.now);
    SameExecuting(s, asked, p.now);
    hide Executing, OwnerExecuting, Holds, Ended;
  }

  lemma PeeksAlone(d: Deployment, s: State, p: Program, candidates: seq<Candidate>, locks: Locks)
    requires p.Claim? && ArePeeked(s, p.now, candidates)
    ensures var free := Solo(s, p, SlotFree, locks);
      Goes(d, free, Peek(0, candidates), Considered(free, 0, candidates, {}, {}))
  {
    SameExecuting(s, Solo(s, p, SlotFree, locks), p.now);
    hide Considered, Executing, OwnerExecuting;
  }

  lemma ConsideredAlone(s: State, p: Program, stage: Stage, locks: Locks, candidates: seq<Candidate>, passedOver: set<UserId>,
                        owned: set<UserId>)
    ensures Considered(Solo(s, p, stage, locks), 0, candidates, passedOver, owned)
      == if candidates == [] then Ended(Solo(s, p, stage, locks), 0)
         else Solo(s, p, Considering(candidates, passedOver, owned), locks)
  {
    hide Ended;
  }

  lemma TriedAlone(locks: Locks, l: LockId)
    requires OnlyZero(locks)
    ensures OnlyZero(Tried(locks, 0, l)) && Holds(Tried(locks, 0, l), 0, l)
  {
    assert Queue(locks, l) == [] || Queue(locks, l) == [0];
    if Queue(locks, l) == [] { GrantedIs(locks, l); }
  }

  lemma PassesOver(d: Deployment, s: State, p: Program, candidates: seq<Candidate>, passedOver: set<UserId>,
                   owned: set<UserId>, locks: Locks)
    requires p.Claim? && candidates != [] && candidates[0].user in passedOver
    ensures var here := Solo(s, p, Considering(candidates, passedOver, owned), locks);
      Goes(d, here, TryOwner(0), Considered(here, 0, candidates[1..], passedOver, owned))
  {
    hide Considered;
  }

  lemma LocksOwner(d: Deployment, s: State, p: Program, candidates: seq<Candidate>, passedOver: set<UserId>,
                   owned: set<UserId>, locks: Locks)
    requires p.Claim? && candidates != [] && candidates[0].user !in passedOver && OnlyZero(locks)
    ensures var user := candidates[0].user;
      Goes(d, Solo(s, p, Considering(candidates, passedOver, owned), locks), TryOwner(0),
           Solo(s, p, Owning(candidates, passedOver, owned + {user}), Tried(locks, 0, OwnerScope(d, user))))
  {
    TriedAlone(locks, OwnerScope(d, candidates[0].user));
    hide Considered, Tried, Holds, OwnerScope, OnlyZero;
  }

  lemma DecidesOwner(d: Deployment, s: State, p: Program, candidates: seq<Candidate>, passedOver: set<UserId>,
                     owned: set<UserId>, locks: Locks)
    requires p.Claim? && candidates != [] && ArePeeked(s, p.now, candidates)
    ensures var c, here := candidates[0], Solo(s, p, Owning(candidates, passedOver, owned), locks);
      Goes(d, here, DecideOwner(0),
           if OwnerHasSlot(s, c.user, p.now) then Solo(s, p, Taking(c, owned), locks)
           else Considered(here, 0, candidates[1..], passedOver + {c.user}, owned))
  {
    var c, here := candidates[0], Solo(s, p, Owning(candidates, passedOver, owned), locks);
    ExecutingAre(s, p.now);
    assert c.ownerRunning == |OwnerExecuting(s, c.user, p.now)| && c.run in s.runs && s.runs[c.run].job.Queued?;
    assert PlanOf(here, c.user) == PlanOf(s, c.user);
    assert RowFree(here, c.run);
    hide Considered, Executing, OwnerExecuting, ArePeeked, PlanOf, RowFree;
  }

  lemma ClaimCommits(d: Deployment, s: State, p: Program, c: Candidate, locks: Locks)
    requires p.Claim? && c.run in s.runs
    ensures Goes(d, Solo(s, p, Taking(c, {c.user}), locks), Commit(0),
                 Ended(Solo(WithJob(s, c.run, Claimed(p.worker, p.now + p.leaseMs)), p, Taking(c, {c.user}), locks), 0))
  {
    hide Released;
  }

  /** A claim up to its commit, of a run whose owner has nothing executing. */
  function DecideSteps(run: RunId, user: UserId, worker: WorkerId, now: nat, leaseMs: nat): seq<Step> {
    [Begin(0, Claim(worker, now, leaseMs)), RequestAdmission(0), CountExecuting(0)]
      + [Peek(0, [Candidate(run, user, 0)]), TryOwner(0), DecideOwner(0)]
  }

  function ClaimSteps(run: RunId, user: UserId, worker: WorkerId, now: nat, leaseMs: nat): seq<Step> {
    DecideSteps(run, user, worker, now, leaseMs) + [Commit(0)]
  }

  lemma PeekedAlone(s: State, run: RunId)
    requires run in s.runs && s.runs[run].job.Queued? && Executing(s, s.clock) == {}
    ensures ArePeeked(s, s.clock, [Candidate(run, s.runs[run].user, 0)])
  {
    assert OwnerExecuting(s, s.runs[run].user, s.clock) <= Executing(s, s.clock);
  }

  lemma NothingExecuting(d: Deployment, s: State, user: UserId)
    requires Executing(s, s.clock) == {} && WithinLimit(d.globalMaxRunning, 1) && WithinLimit(PlanOf(s, user), 1)
    ensures SlotLeft(d, s, s.clock) && OwnerHasSlot(s, user, s.clock)
  {
    ExecutingAre(s, s.clock);
    assert OwnerExecuting(s, user, s.clock) <= Executing(s, s.clock);
    hide Executing, OwnerExecuting, PlanOf;
  }

  /** The state of a claim that is about to commit. */
  function AboutToTake(s: State, run: RunId, worker: WorkerId, leaseMs: nat, locks: Locks): State
    requires run in s.runs
  {
    var user := s.runs[run].user;
    Solo(s, Claim(worker, s.clock, leaseMs), Taking(Candidate(run, user, 0), {user}), locks)
  }

  /** Alone, a claim gets as far as its commit when nothing is executing. */
  lemma DecideLeads(d: Deployment, s: State, run: RunId, worker: WorkerId, leaseMs: nat) returns (locks: Locks)
    requires Idle(s) && run in s.runs && s.runs[run].job.Queued? && WithinLimit(PlanOf(s, s.runs[run].user), 1)
    requires WithinLimit(d.globalMaxRunning, 1) && Executing(s, s.clock) == {}
    ensures Leads(d, s, DecideSteps(run, s.runs[run].user, worker, s.clock, leaseMs), AboutToTake(s, run, worker, leaseMs, locks))
    ensures OnlyZero(locks)
  {
    var user := s.runs[run].user;
    var p, c := Claim(worker, s.clock, leaseMs), Candidate(run, user, 0);
    var one := Granted(s.locks, Admission);
    locks := Granted(one, OwnerScope(d, user));
    IdleLocks(s);
    BeginAlone(d, s, p);
    GrantedIs(s.locks, Admission);
    GrantedIs(one, OwnerScope(d, user));
    PeekedAlone(s, run);
    NothingExecuting(d, s, user);
    hide Goes, Leads, Granted, OwnerScope, Idle, OnlyZero, Holds, ArePeeked, Executing, OwnerExecuting, Considered, Tried,
      SlotLeft, OwnerHasSlot;
    ClaimRequestsAdmission(d, s, p, s.locks);
    CountsAlone(d, s, p, one);
    PeeksAlone(d, s, p, [c], one);
    ConsideredAlone(s, p, SlotFree, one, [c], {}, {});
    LocksOwner(d, s, p, [c], {}, {}, one);
    assert {} + {user} == {user};
    DecidesOwner(d, s, p, [c], {}, {user}, locks);
    var s1, s2 := Solo(s, p, SlotFree, one), AboutToTake(s, run, worker, leaseMs, locks);
    ThreeLead(d, s, Begin(0, p), Solo(s, p, Begun, s.locks), RequestAdmission(0), Solo(s, p, AdmissionLock, one), CountExecuting(0), s1);
    ThreeLead(d, s1, Peek(0, [c]), Solo(s, p, Considering([c], {}, {}), one), TryOwner(0),
              Solo(s, p, Owning([c], {}, {user}), locks), DecideOwner(0), s2);
    hide Solo, AboutToTake;
    LeadsOn(d, s, [Begin(0, p), RequestAdmission(0), CountExecuting(0)], s1, [Peek(0, [c]), TryOwner(0), DecideOwner(0)], s2);
  }

  /** Alone, a claim takes the run. */
  lemma ClaimLeads(d: Deployment, s: State, run: RunId, worker: WorkerId, leaseMs: nat) returns (t: State)
    requires Idle(s) && run in s.runs && s.runs[run].job.Queued? && WithinLimit(PlanOf(s, s.runs[run].user), 1)
    requires WithinLimit(d.globalMaxRunning, 1) && Executing(s, s.clock) == {}
    ensures Leads(d, s, ClaimSteps(run, s.runs[run].user, worker, s.clock, leaseMs), t) && Idle(t)
    ensures t.runs == s.runs[run := s.runs[run].(job := Claimed(worker, s.clock + leaseMs))]
    ensures t.clock == s.clock && t.plans == s.plans && t.nextRun == s.nextRun
  {
    var user := s.runs[run].user;
    var p, c := Claim(worker, s.clock, leaseMs), Candidate(run, user, 0);
    var claimed := WithJob(s, run, Claimed(worker, s.clock + leaseMs));
    var locks := DecideLeads(d, s, run, worker, leaseMs);
    EndsIdle(claimed, p, Taking(c, {user}), locks);
    t := Ended(Solo(claimed, p, Taking(c, {user}), locks), 0);
    ClaimCommits(d, s, p, c, locks);
    hide Goes, Leads, Idle, OnlyZero, Executing, DecideSteps;
    OneLeads(d, AboutToTake(s, run, worker, leaseMs, locks), Commit(0), t);
    hide AboutToTake;
    LeadsOn(d, s, DecideSteps(run, user, worker, s.clock, leaseMs), AboutToTake(s, run, worker, leaseMs, locks), [Commit(0)], t);
  }
}
