/**
 * What submissions and claims are given: room is never refused. A transaction that goes alone succeeds exactly when
 * what it asks for fits, and in every run a refusal means that the limit had been reached.
 */
module QueueAdmission {
  import opened Wrappers
  import opened Limits
  import opened LockQueues
  import opened BacktestQueue
  import opened QueueLocks
  import opened QueueCapacity
  import opened SoloRuns

  // ---- Submissions ----------------------------------------------------------------------------

  /**
   * Alone, a submission leaves a queued run of the user's with the next number when the user has room for one, and
   * otherwise leaves everything as it was.
   */
  lemma SubmissionAlone(d: Deployment, s: State, user: UserId) returns (steps: seq<Step>, t: State)
    requires Idle(s)
    ensures Leads(d, s, steps, t) && Idle(t) && steps != [] && steps[0] == Begin(0, Submit(user))
    ensures HasRoom(s, user) ==>
      && t.runs == s.runs[s.nextRun := Run(user, if user in s.counters then s.counters[user] + 1 else 1, Queued)]
      && t.plans == s.plans
    ensures !HasRoom(s, user) ==> SameCommitted(s, t)
  {
    hide Leads, Idle, HasRoom, PlanOf;
    if HasRoom(s, user) {
      steps := SubmitSteps(user);
      t := SubmitLeads(d, s, user);
    } else {
      steps := AskSteps(user);
      t := RefusalLeads(d, s, user);
    }
  }

  /** In every run, a submission is refused by its count exactly when its user has no room as the plan then stands. */
  lemma RefusedWithoutRoom(d: Deployment, plans: map<UserId, Limit>, steps: seq<Step>, tx: TxId)
    requires IsRun(d, plans, steps) && Enabled(d, After(d, plans, steps), CountInFlight(tx))
    ensures var s := After(d, plans, steps);
      tx in Next(d, s, CountInFlight(tx)).txs <==> HasRoom(s, s.txs[tx].program.user)
  {
    AlwaysPromises(d, plans, steps);
    var s := After(d, plans, steps);
    assert Promised(s, tx);
    InFlightAre(s, s.txs[tx].program.user);
    hide InFlight, PlanOf, Promises, IsRun, After, Released;
  }

  // ---- Claims ---------------------------------------------------------------------------------

  /** In every state, a claim is stopped by its count exactly when no slot is left. */
  lemma StoppedWithoutSlot(d: Deployment, s: State, tx: TxId)
    requires Enabled(d, s, CountExecuting(tx))
    ensures tx in Next(d, s, CountExecuting(tx)).txs <==> SlotLeft(d, s, s.txs[tx].program.now)
  {
    ExecutingAre(s, s.txs[tx].program.now);
    hide Executing, OwnerExecuting, Holds, Released;
  }

  /** The first candidate whose owner may run one more. */
  ghost function FirstWithSlot(s: State, now: nat, candidates: seq<Candidate>): Option<Candidate> {
    if candidates == [] then None
    else if OwnerHasSlot(s, candidates[0].user, now) then Some(candidates[0])
    else FirstWithSlot(s, now, candidates[1..])
  }

  lemma StillPeeked(s: State, now: nat, candidates: seq<Candidate>)
    requires candidates != [] && ArePeeked(s, now, candidates)
    ensures ArePeeked(s, now, candidates[1..])
    ensures candidates[0].run in s.runs && s.runs[candidates[0].run].job.Queued?
  {
    hide OwnerExecuting;
  }

  /** What a claim leaves behind: the first candidate with a slot claimed, or nothing. */
  ghost predicate TookFirst(s: State, p: Program, candidates: seq<Candidate>, t: State)
    requires p.Claim?
  {
    var c := FirstWithSlot(s, p.now, candidates);
    if c.None? then SameCommitted(s, t)
    else c.value.run in s.runs && SameCommitted(WithJob(s, c.value.run, Claimed(p.worker, p.now + p.leaseMs)), t)
  }

  /** The locked owner of the first candidate either gets the slot or is passed over. */
  lemma {:induction false} OwningLeads(d: Deployment, s: State, p: Program, candidates: seq<Candidate>,
                                       passedOver: set<UserId>, owned: set<UserId>, locks: Locks)
    returns (steps: seq<Step>, t: State)
    requires p.Claim? && candidates != [] && ArePeeked(s, p.now, candidates) && OnlyZero(locks)
    requires forall u :: u in passedOver ==> !OwnerHasSlot(s, u, p.now)
    ensures Leads(d, Solo(s, p, Owning(candidates, passedOver, owned), locks), steps, t)
    ensures Idle(t) && TookFirst(s, p, candidates, t)
    decreases |candidates|, 0
  {
    var c, here := candidates[0], Solo(s, p, Owning(candidates, passedOver, owned), locks);
    StillPeeked(s, p.now, candidates);
    DecidesOwner(d, s, p, candidates, passedOver, owned, locks);
    hide Goes, Leads, Idle, OnlyZero, ArePeeked, OwnerHasSlot, Considered, Ended;
    if OwnerHasSlot(s, c.user, p.now) {
      var taking := Solo(s, p, Taking(c, owned), locks);
      t := TakingLeads(d, s, p, c, owned, locks);
      OneLeads(d, here, DecideOwner(0), taking);
      LeadsOn(d, here, [DecideOwner(0)], taking, [Commit(0)], t);
      steps := [DecideOwner(0)] + [Commit(0)];
    } else {
      var rest;
      var next := Considered(here, 0, candidates[1..], passedOver + {c.user}, owned);
      rest, t := RestLeads(d, s, p, Owning(candidates, passedOver, owned), candidates[1..], passedOver + {c.user}, owned, locks);
      OneLeads(d, here, DecideOwner(0), next);
      LeadsOn(d, here, [DecideOwner(0)], next, rest, t);
      steps := [DecideOwner(0)] + rest;
    }
  }

  lemma TakingLeads(d: Deployment, s: State, p: Program, c: Candidate, owned: set<UserId>, locks: Locks)
    returns (t: State)
    requires p.Claim? && c.run in s.runs && OnlyZero(locks)
    ensures Leads(d, Solo(s, p, Taking(c, owned), locks), [Commit(0)], t)
    ensures Idle(t) && SameCommitted(WithJob(s, c.run, Claimed(p.worker, p.now + p.leaseMs)), t)
  {
    var claimed := WithJob(s, c.run, Claimed(p.worker, p.now + p.leaseMs));
    EndsIdle(claimed, p, Taking(c, owned), locks);
    t := Ended(Solo(claimed, p, Taking(c, owned), locks), 0);
    assert Goes(d, Solo(s, p, Taking(c, owned), locks), Commit(0), t) by { hide Released; }
    hide Goes, Leads, Idle, OnlyZero;
    OneLeads(d, Solo(s, p, Taking(c, owned), locks), Commit(0), t);
  }

  /** The loop goes on with the remaining candidates, or the claim ends with nothing taken. */
  lemma {:induction false} RestLeads(d: Deployment, s: State, p: Program, stage: Stage, candidates: seq<Candidate>,
                                     passedOver: set<UserId>, owned: set<UserId>, locks: Locks)
    returns (steps: seq<Step>, t: State)
    requires p.Claim? && ArePeeked(s, p.now, candidates) && OnlyZero(locks)
    requires forall u :: u in passedOver ==> !OwnerHasSlot(s, u, p.now)
    ensures Leads(d, Considered(Solo(s, p, stage, locks), 0, candidates, passedOver, owned), steps, t)
    ensures Idle(t) && TookFirst(s, p, candidates, t)
    decreases |candidates|, 2
  {
    ConsideredAlone(s, p, stage, locks, candidates, passedOver, owned);
    if candidates == [] {
      EndsIdle(s, p, stage, locks);
      t := Ended(Solo(s, p, stage, locks), 0);
      steps := [];
      hide Idle, OnlyZero, Released;
    } else {
      hide Leads, Idle, OnlyZero, ArePeeked, OwnerHasSlot, Considered, TookFirst;
      steps, t := ConsideringLeads(d, s, p, candidates, passedOver, owned, locks);
    }
  }

  lemma {:induction false} ConsideringLeads(d: Deployment, s: State, p: Program, candidates: seq<Candidate>,
                                            passedOver: set<UserId>, owned: set<UserId>, locks: Locks)
    returns (steps: seq<Step>, t: State)
    requires p.Claim? && candidates != [] && ArePeeked(s, p.now, candidates) && OnlyZero(locks)
    requires forall u :: u in passedOver ==> !OwnerHasSlot(s, u, p.now)
    ensures Leads(d, Solo(s, p, Considering(candidates, passedOver, owned), locks), steps, t)
    ensures Idle(t) && TookFirst(s, p, candidates, t)
    decreases |candidates|, 1
  {
    var user, here := candidates[0].user, Solo(s, p, Considering(candidates, passedOver, owned), locks);
    var rest, next;
    StillPeeked(s, p.now, candidates);
    hide Goes, Leads, Idle, OnlyZero, ArePeeked, OwnerHasSlot, Considered, Tried, Holds, OwnerScope;
    if user in passedOver {
      PassesOver(d, s, p, candidates, passedOver, owned, locks);
      next := Considered(here, 0, candidates[1..], passedOver, owned);
      rest, t := RestLeads(d, s, p, Considering(candidates, passedOver, owned), candidates[1..], passedOver, owned, locks);
    } else {
      LocksOwner(d, s, p, candidates, passedOver, owned, locks);
      TriedAlone(locks, OwnerScope(d, user));
      var held := Tried(locks, 0, OwnerScope(d, user));
      next := Solo(s, p, Owning(candidates, passedOver, owned + {user}), held);
      rest, t := OwningLeads(d, s, p, candidates, passedOver, owned + {user}, held);
    }
    OneLeads(d, here, TryOwner(0), next);
    LeadsOn(d, here, [TryOwner(0)], next, rest, t);
    steps := [TryOwner(0)] + rest;
  }

  /**
   * Alone, a claim that looks at these candidates takes the first whose owner may run one more; without a slot left
   * in the deployment, or without such a candidate, it takes nothing.
   */
  lemma ClaimAlone(d: Deployment, s: State, worker: WorkerId, leaseMs: nat, candidates: seq<Candidate>)
    returns (steps: seq<Step>, t: State)
    requires Idle(s) && ArePeeked(s, s.clock, candidates)
    ensures Leads(d, s, steps, t) && Idle(t) && steps != [] && steps[0] == Begin(0, Claim(worker, s.clock, leaseMs))
    ensures if SlotLeft(d, s, s.clock) then TookFirst(s, Claim(worker, s.clock, leaseMs), candidates, t)
            else SameCommitted(s, t)
  {
    var p, locks := Claim(worker, s.clock, leaseMs), Granted(s.locks, Admission);
    var begun := Solo(s, p, Begun, s.locks);
    var asked, free := Solo(s, p, AdmissionLock, locks), Solo(s, p, SlotFree, locks);
    IdleLocks(s);
    BeginAlone(d, s, p);
    GrantedIs(s.locks, Admission);
    EndsIdle(s, p, AdmissionLock, locks);
    hide Goes, Leads, Granted, Idle, OnlyZero, Holds, ArePeeked, SlotLeft, TookFirst;
    ClaimRequestsAdmission(d, s, p, s.locks);
    CountsAlone(d, s, p, locks);
    var counted := if SlotLeft(d, s, p.now) then free else Ended(asked, 0);
    ThreeLead(d, s, Begin(0, p), begun, RequestAdmission(0), asked, CountExecuting(0), counted);
    steps, t := [Begin(0, p), RequestAdmission(0), CountExecuting(0)], counted;
    if SlotLeft(d, s, p.now) {
      PeeksAlone(d, s, p, candidates, locks);
      var next := Considered(free, 0, candidates, {}, {});
      var rest;
      rest, t := RestLeads(d, s, p, SlotFree, candidates, {}, {}, locks);
      hide Considered, Solo, Ended;
      OneLeads(d, free, Peek(0, candidates), next);
      LeadsOn(d, free, [Peek(0, candidates)], next, rest, t);
      LeadsOn(d, s, steps, free, [Peek(0, candidates)] + rest, t);
      steps := steps + ([Peek(0, candidates)] + rest);
    }
  }
}
