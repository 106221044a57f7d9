/**
 * Submissions, claims and everything that touches a queued backtest, as transactions that interleave statement
 * by statement under READ COMMITTED: a statement reads what is committed when it runs, a lock request waits in the
 * lock's queue, a commit publishes the transaction's writes and releases its locks, and a rollback publishes nothing.
 */
module BacktestQueue {
  import opened Wrappers
  import opened Limits
  import opened LockQueues

  type RunId = nat
  type WorkerId = nat

  /** What the deployment fixes: the lock-key hash and the cap every worker is configured with. */
  datatype Deployment = Deployment(hashtext: UserId -> int, globalMaxRunning: Limit)

  datatype Job =
    | Queued
    | Claimed(worker: WorkerId, lease: nat)
    | Closed

  /** A run with its job. The run is in flight until its job is closed. */
  datatype Run = Run(user: UserId, number: nat, job: Job)

  datatype Candidate = Candidate(run: RunId, user: UserId, ownerRunning: nat)

  datatype Program =
    | Submit(user: UserId)
    | Record(user: UserId)
    | ChangePlan(user: UserId, limit: Limit)
    | Claim(worker: WorkerId, now: nat, leaseMs: nat)

  /** How far a transaction has come; a stage carries what its statements have read. */
  datatype Stage =
    | Begun
    // Waiting for, or holding, the owner's lock
    | OwnerLock
    | Planned(limit: Limit)
    | Admitted
    // Waiting for, or holding, the counter row
    | CounterLock
    | Numbered(number: nat)
    // Waiting for, or holding, the admission lock
    | AdmissionLock
    | SlotFree
    | Considering(candidates: seq<Candidate>, passedOver: set<UserId>, owned: set<UserId>)
    | Owning(candidates: seq<Candidate>, passedOver: set<UserId>, owned: set<UserId>)
    | Taking(candidate: Candidate, owned: set<UserId>)

  datatype Tx = Tx(program: Program, stage: Stage)

  datatype State = State(
    locks: Locks,
    txs: map<TxId, Tx>,
    plans: map<UserId, Limit>,
    counters: map<UserId, nat>,
    runs: map<RunId, Run>,
    nextRun: RunId,
    clock: nat)

  function PlanOf(s: State, user: UserId): Limit { if user in s.plans then s.plans[user] else Some(0) }

  // ---- What statements count ------------------------------------------------------------------

  /** Runs of a user in a status that is not terminal. */
  function InFlight(s: State, user: UserId): set<RunId> {
    set r | r in s.runs && s.runs[r].user == user && !s.runs[r].job.Closed?
  }

  /** Claimed jobs whose lease is still running at `now`. */
  function Executing(s: State, now: nat): set<RunId> {
    set r | r in s.runs && s.runs[r].job.Claimed? && s.runs[r].job.lease > now
  }

  function OwnerExecuting(s: State, user: UserId, now: nat): set<RunId> {
    set r | r in s.runs && s.runs[r].user == user && s.runs[r].job.Claimed? && s.runs[r].job.lease > now
  }

  /** What the candidate query may return: queued runs, each with its owner's executing count. */
  predicate ArePeeked(s: State, now: nat, candidates: seq<Candidate>) {
    forall i :: 0 <= i < |candidates| ==>
      && candidates[i].run in s.runs && s.runs[candidates[i].run].job.Queued?
      && s.runs[candidates[i].run].user == candidates[i].user
      && candidates[i].ownerRunning == |OwnerExecuting(s, candidates[i].user, now)|
  }

  /** No claim is about to update the job row. */
  predicate RowFree(s: State, run: RunId) {
    forall tx :: tx in s.txs && s.txs[tx].stage.Taking? ==> s.txs[tx].stage.candidate.run != run
  }

  // ---- Steps ----------------------------------------------------------------------------------

  datatype Step =
    | Begin(tx: TxId, program: Program)
    // Submission, recording, plan change
    | RequestOwner(tx: TxId)
    | ReadPlan(tx: TxId)
    | CountInFlight(tx: TxId)
    | RequestCounter(tx: TxId)
    | AllocateNumber(tx: TxId)
    // Claim
    | RequestAdmission(tx: TxId)
    | CountExecuting(tx: TxId)
    | Peek(tx: TxId, candidates: seq<Candidate>)
    | TryOwner(tx: TxId)
    | DecideOwner(tx: TxId)
    // The end of any transaction
    | Commit(tx: TxId)
    | Abort(tx: TxId)
    // Single statements on one job and its run
    | Heartbeat(run: RunId, worker: WorkerId, now: nat, leaseMs: nat)
    | Finish(run: RunId, worker: WorkerId)
    | Release(run: RunId, worker: WorkerId)
    | Requeue(run: RunId, now: nat)
    | Expire(run: RunId, now: nat)
    | CloseQueued(run: RunId)
    | Delete(run: RunId)
    | Tick(ms: nat)

  predicate At(s: State, tx: TxId, stage: Stage) { tx in s.txs && s.txs[tx].stage == stage }

  function OwnerScope(d: Deployment, user: UserId): LockId { UserScope(d.hashtext(user)) }

  predicate ClaimedBy(s: State, run: RunId, worker: WorkerId) {
    run in s.runs && s.runs[run].job.Claimed? && s.runs[run].job.worker == worker
  }

  predicate Stale(s: State, run: RunId, now: nat) {
    run in s.runs && s.runs[run].job.Claimed? && s.runs[run].job.lease < now <= s.clock
  }

  /** A worker's clock reading is not ahead of the present; locks are awaited before going on. */
  predicate Enabled(d: Deployment, s: State, e: Step) {
    match e
    case Begin(tx, p) => tx !in s.txs && (p.Claim? ==> p.now <= s.clock)
    case RequestOwner(tx) => At(s, tx, Begun) && (s.txs[tx].program.Submit? || s.txs[tx].program.ChangePlan?)
    case ReadPlan(tx) =>
      At(s, tx, OwnerLock) && s.txs[tx].program.Submit? && Holds(s.locks, tx, OwnerScope(d, s.txs[tx].program.user))
    case CountInFlight(tx) => tx in s.txs && s.txs[tx].program.Submit? && s.txs[tx].stage.Planned?
    case RequestCounter(tx) =>
      || (At(s, tx, Admitted) && s.txs[tx].program.Submit?)
      || (At(s, tx, Begun) && s.txs[tx].program.Record?)
    case AllocateNumber(tx) =>
      && At(s, tx, CounterLock) && (s.txs[tx].program.Submit? || s.txs[tx].program.Record?)
      && Holds(s.locks, tx, CounterRow(s.txs[tx].program.user))
    case RequestAdmission(tx) => At(s, tx, Begun) && s.txs[tx].program.Claim?
    case CountExecuting(tx) => At(s, tx, AdmissionLock) && s.txs[tx].program.Claim? && Holds(s.locks, tx, Admission)
    case Peek(tx, candidates) =>
      At(s, tx, SlotFree) && s.txs[tx].program.Claim? && ArePeeked(s, s.txs[tx].program.now, candidates)
    case TryOwner(tx) =>
      tx in s.txs && s.txs[tx].program.Claim? && s.txs[tx].stage.Considering? && s.txs[tx].stage.candidates != []
    case DecideOwner(tx) =>
      tx in s.txs && s.txs[tx].program.Claim? && s.txs[tx].stage.Owning? && s.txs[tx].stage.candidates != []
    case Commit(tx) => tx in s.txs && Committable(d, s, tx)
    case Abort(tx) => tx in s.txs
    case Heartbeat(run, worker, now, _) => ClaimedBy(s, run, worker) && now <= s.clock
    case Finish(run, worker) => ClaimedBy(s, run, worker)
    case Release(run, worker) => ClaimedBy(s, run, worker)
    case Requeue(run, now) => Stale(s, run, now)
    case Expire(run, now) => Stale(s, run, now)
    case CloseQueued(run) => run in s.runs && s.runs[run].job.Queued? && RowFree(s, run)
    case Delete(run) => run in s.runs && RowFree(s, run)
    case Tick(_) => true
  }

  /** A transaction that has done all its work, or has found nothing to do. */
  predicate Committable(d: Deployment, s: State, tx: TxId)
    requires tx in s.txs
  {
    match s.txs[tx].program
    case Submit(_) => s.txs[tx].stage.Numbered?
    case Record(_) => s.txs[tx].stage.Numbered?
    case ChangePlan(user, _) => s.txs[tx].stage.OwnerLock? && Holds(s.locks, tx, OwnerScope(d, user))
    case Claim(_, _, _) => s.txs[tx].stage.Taking?
  }

  function WithStage(s: State, tx: TxId, stage: Stage): State
    requires tx in s.txs
  {
    s.(txs := s.txs[tx := s.txs[tx].(stage := stage)])
  }

  /** The transaction's locks are released and it is gone; what it wrote is in `s` or lost. */
  function Ended(s: State, tx: TxId): State { s.(txs := s.txs - {tx}, locks := Released(s.locks, tx)) }

  function WithJob(s: State, run: RunId, job: Job): State
    requires run in s.runs
  {
    s.(runs := s.runs[run := s.runs[run].(job := job)])
  }

  function WithNewRun(s: State, user: UserId, number: nat, job: Job): State {
    s.(runs := s.runs[s.nextRun := Run(user, number, job)], nextRun := s.nextRun + 1,
       counters := s.counters[user := number])
  }

  /** The writes a commit publishes. */
  function Published(s: State, tx: TxId): State
    requires tx in s.txs
  {
    match s.txs[tx].program
    case Submit(user) => if s.txs[tx].stage.Numbered? then WithNewRun(s, user, s.txs[tx].stage.number, Queued) else s
    case Record(user) => if s.txs[tx].stage.Numbered? then WithNewRun(s, user, s.txs[tx].stage.number, Closed) else s
    case ChangePlan(user, limit) => s.(plans := s.plans[user := limit])
    case Claim(worker, now, leaseMs) =>
      if s.txs[tx].stage.Taking? && s.txs[tx].stage.candidate.run in s.runs
      then WithJob(s, s.txs[tx].stage.candidate.run, Claimed(worker, now + leaseMs)) else s
  }

  /** Counting and deciding: a refused submission rolls back. */
  function Counted(s: State, tx: TxId): State
    requires tx in s.txs && s.txs[tx].program.Submit? && s.txs[tx].stage.Planned?
  {
    if WithinLimit(s.txs[tx].stage.limit, |InFlight(s, s.txs[tx].program.user)| + 1) then WithStage(s, tx, Admitted)
    else Ended(s, tx)
  }

  /** The slot check: at the cap the claim takes nothing. */
  function SlotChecked(d: Deployment, s: State, tx: TxId): State
    requires tx in s.txs && s.txs[tx].program.Claim?
  {
    if d.globalMaxRunning.Some? && |Executing(s, s.txs[tx].program.now)| >= d.globalMaxRunning.value then Ended(s, tx)
    else WithStage(s, tx, SlotFree)
  }

  /** The loop over candidates with an owner still to be locked; without candidates the claim takes nothing. */
  function Considered(s: State, tx: TxId, candidates: seq<Candidate>, passedOver: set<UserId>, owned: set<UserId>): State
    requires tx in s.txs
  {
    if candidates == [] then Ended(s, tx) else WithStage(s, tx, Considering(candidates, passedOver, owned))
  }

  /** One candidate: its owner was passed over, or cannot be locked now, or is locked. */
  function OwnerTried(d: Deployment, s: State, tx: TxId): State
    requires tx in s.txs && s.txs[tx].stage.Considering? && s.txs[tx].stage.candidates != []
  {
    var Considering(candidates, passedOver, owned) := s.txs[tx].stage;
    var user := candidates[0].user;
    if user in passedOver then Considered(s, tx, candidates[1..], passedOver, owned)
    else
      var t := s.(locks := Tried(s.locks, tx, OwnerScope(d, user)));
      if Holds(t.locks, tx, OwnerScope(d, user)) then WithStage(t, tx, Owning(candidates, passedOver, owned + {user}))
      else Considered(s, tx, candidates[1..], passedOver + {user}, owned)
  }

  /** The owner's plan, re-read under the lock, and then the job row, unless another transaction has it. */
  function OwnerDecided(s: State, tx: TxId): State
    requires tx in s.txs && s.txs[tx].stage.Owning? && s.txs[tx].stage.candidates != []
  {
    var Owning(candidates, passedOver, owned) := s.txs[tx].stage;
    var c := candidates[0];
    if !WithinLimit(PlanOf(s, c.user), c.ownerRunning + 1) then
      Considered(s, tx, candidates[1..], passedOver + {c.user}, owned)
    else if c.run in s.runs && s.runs[c.run].job.Queued? && RowFree(s, c.run) then WithStage(s, tx, Taking(c, owned))
    else Considered(s, tx, candidates[1..], passedOver, owned)
  }

  function Next(d: Deployment, s: State, e: Step): State
    requires Enabled(d, s, e)
  {
    match e
    case Begin(tx, p) => s.(txs := s.txs[tx := Tx(p, Begun)])
    case RequestOwner(tx) =>
      WithStage(s.(locks := Requested(s.locks, tx, OwnerScope(d, s.txs[tx].program.user))), tx, OwnerLock)
    case ReadPlan(tx) => WithStage(s, tx, Planned(PlanOf(s, s.txs[tx].program.user)))
    case CountInFlight(tx) => Counted(s, tx)
    case RequestCounter(tx) =>
      WithStage(s.(locks := Requested(s.locks, tx, CounterRow(s.txs[tx].program.user))), tx, CounterLock)
    case AllocateNumber(tx) => WithStage(s, tx, Numbered(NextNumber(s.counters, s.txs[tx].program.user)))
    case RequestAdmission(tx) => WithStage(s.(locks := Requested(s.locks, tx, Admission)), tx, AdmissionLock)
    case CountExecuting(tx) => SlotChecked(d, s, tx)
    case Peek(tx, candidates) => Considered(s, tx, candidates, {}, {})
    case TryOwner(tx) => OwnerTried(d, s, tx)
    case DecideOwner(tx) => OwnerDecided(s, tx)
    case Commit(tx) => Ended(Published(s, tx), tx)
    case Abort(tx) => Ended(s, tx)
    case Heartbeat(run, worker, now, leaseMs) => WithJob(s, run, Claimed(worker, now + leaseMs))
    case Finish(run, _) => WithJob(s, run, Closed)
    case Release(run, _) => WithJob(s, run, Queued)
    case Requeue(run, _) => WithJob(s, run, Queued)
    case Expire(run, _) => WithJob(s, run, Closed)
    case CloseQueued(run) => WithJob(s, run, Closed)
    case Delete(run) => s.(runs := s.runs - {run})
    case Tick(ms) => s.(clock := s.clock + ms)
  }

  // ---- What steps leave alone -----------------------------------------------------------------

  /** A statement on one job and its run, outside any of the modelled transactions. */
  predicate IsStatement(e: Step) {
    e.Heartbeat? || e.Finish? || e.Release? || e.Requeue? || e.Expire? || e.CloseQueued? || e.Delete?
  }

  /** Nothing committed differs, and time has not passed. */
  predicate SameCommitted(s: State, t: State) {
    t.plans == s.plans && t.counters == s.counters && t.runs == s.runs && t.nextRun == s.nextRun && t.clock == s.clock
  }

  /** Only `tx` moves, and stays in the loop over candidates unless it ends. */
  ghost predicate GoesOnConsidering(s: State, t: State, tx: TxId) {
    && SameCommitted(s, t)
    && (forall x :: x in t.txs && x != tx ==> x in s.txs && t.txs[x] == s.txs[x])
    && (tx in t.txs ==>
      && tx in s.txs && t.txs[tx].program == s.txs[tx].program
      && (t.txs[tx].stage.Considering? || t.txs[tx].stage.Owning? || t.txs[tx].stage.Taking?))
  }

  lemma ConsideredGoesOn(s: State, tx: TxId, candidates: seq<Candidate>, passedOver: set<UserId>, owned: set<UserId>)
    requires tx in s.txs
    ensures GoesOnConsidering(s, Considered(s, tx, candidates, passedOver, owned), tx)
  {
    hide Released;
  }

  lemma ConsideringGoesOn(d: Deployment, s: State, e: Step)
    requires Enabled(d, s, e) && (e.Peek? || e.TryOwner? || e.DecideOwner?)
    ensures GoesOnConsidering(s, Next(d, s, e), e.tx)
  {
    hide ArePeeked, Holds, Released, WithinLimit, PlanOf, OwnerScope, RowFree, Tried, Considered;
    match e
    case Peek(tx, candidates) => ConsideredGoesOn(s, tx, candidates, {}, {});
    case TryOwner(tx) =>
      var Considering(candidates, passedOver, owned) := s.txs[tx].stage;
      ConsideredGoesOn(s, tx, candidates[1..], passedOver, owned);
      ConsideredGoesOn(s, tx, candidates[1..], passedOver + {candidates[0].user}, owned);
    case DecideOwner(tx) =>
      var Owning(candidates, passedOver, owned) := s.txs[tx].stage;
      ConsideredGoesOn(s, tx, candidates[1..], passedOver, owned);
      ConsideredGoesOn(s, tx, candidates[1..], passedOver + {candidates[0].user}, owned);
  }

  /** Until it commits, a transaction publishes nothing. */
  lemma OnlyCommitPublishes(d: Deployment, s: State, e: Step)
    requires Enabled(d, s, e) && !e.Commit? && !e.Tick? && !IsStatement(e)
    ensures SameCommitted(s, Next(d, s, e))
  {
    hide InFlight, Executing, ArePeeked, Holds, Requested, Released, WithinLimit, PlanOf, OwnerScope, NextNumber, RowFree,
      OwnerTried, OwnerDecided, Considered;
    if e.Peek? || e.TryOwner? || e.DecideOwner? { ConsideringGoesOn(d, s, e); }
  }

  // ---- Runs of the system ---------------------------------------------------------------------

  /** Nothing is queued or locked; every account has its plan. */
  function Initial(plans: map<UserId, Limit>): State { State(map[], map[], plans, map[], map[], 0, 0) }

  predicate IsRun(d: Deployment, plans: map<UserId, Limit>, steps: seq<Step>)
    decreases |steps|, 0
  {
    steps == []
    || (IsRun(d, plans, steps[..|steps| - 1])
        && Enabled(d, After(d, plans, steps[..|steps| - 1]), steps[|steps| - 1]))
  }

  function After(d: Deployment, plans: map<UserId, Limit>, steps: seq<Step>): State
    requires IsRun(d, plans, steps)
    decreases |steps|, 1
  {
    if steps == [] then Initial(plans)
    else Next(d, After(d, plans, steps[..|steps| - 1]), steps[|steps| - 1])
  }
}
