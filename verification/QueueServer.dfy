/** The server carries out any run of the queue: its lock table and counters are those of the state after every step. */
module QueueServer {
  import opened Limits
  import opened LockQueues
  import opened BacktestQueue
  import opened QueueLocks
  import opened QueueNumbers

  predicate Allocated(t: Tx) { CreatesRun(t.program) && t.stage.Numbered? }

  /** The counter each transaction has written and not committed. */
  function Unpublished(s: State): map<TxId, map<UserId, nat>> {
    map tx | tx in s.txs && Allocated(s.txs[tx]) :: map[s.txs[tx].program.user := s.txs[tx].stage.number]
  }

  ghost predicate Shows(server: Server, d: Deployment, s: State)
    reads server
  {
    && server.hashtext == d.hashtext && server.locks == s.locks
    && server.lastRunNumber == s.counters && server.uncommitted == Unpublished(s)
  }

  // ---- What steps do to the unpublished numbers -----------------------------------------------

  lemma SameUnpublished(s: State, t: State)
    requires forall tx :: tx in s.txs && Allocated(s.txs[tx]) <==> tx in t.txs && Allocated(t.txs[tx])
    requires forall tx :: tx in s.txs && tx in t.txs && Allocated(s.txs[tx]) ==> t.txs[tx] == s.txs[tx]
    ensures Unpublished(t) == Unpublished(s)
  {
  }

  lemma EndedUnpublished(s: State, tx: TxId)
    ensures Unpublished(Ended(s, tx)) == Unpublished(s) - {tx}
  {
    hide Released;
  }

  lemma NumberedUnpublished(s: State, tx: TxId, number: nat)
    requires tx in s.txs && CreatesRun(s.txs[tx].program)
    ensures Unpublished(WithStage(s, tx, Numbered(number))) == Unpublished(s)[tx := map[s.txs[tx].program.user := number]]
  {
  }

  lemma StagedUnpublished(s: State, tx: TxId, stage: Stage)
    requires tx in s.txs && !Allocated(s.txs[tx]) && !stage.Numbered?
    ensures Unpublished(WithStage(s, tx, stage)) == Unpublished(s)
  {
    SameUnpublished(s, WithStage(s, tx, stage));
  }

  lemma PublishedCounters(d: Deployment, s: State, tx: TxId)
    requires tx in s.txs && Committable(d, s, tx)
    ensures Published(s, tx).counters == Seen(s.counters, Unpublished(s), tx) && Published(s, tx).txs == s.txs
  {
    hide Holds, OwnerScope;
    var t := s.txs[tx];
    if Allocated(t) {
      assert s.counters[t.program.user := t.stage.number] == s.counters + map[t.program.user := t.stage.number];
    }
  }

  // ---- The statements -------------------------------------------------------------------------

  /** Commit of a transaction that has done its work. */
  method CommitPublished(server: Server, d: Deployment, s: State, tx: TxId)
    requires Shows(server, d, s) && tx in s.txs && Committable(d, s, tx)
    modifies server
    ensures Shows(server, d, Ended(Published(s, tx), tx))
  {
    PublishedCounters(d, s, tx);
    PublishedLocks(s, tx);
    SameUnpublished(s, Published(s, tx));
    EndedUnpublished(Published(s, tx), tx);
    hide Published, Committable, Unpublished, Released, Seen;
    server.Commit(tx);
  }

  /** Commit of a claim that takes nothing. */
  method CommitNothing(server: Server, d: Deployment, s: State, tx: TxId)
    requires Shows(server, d, s) && tx in s.txs && !Allocated(s.txs[tx])
    modifies server
    ensures Shows(server, d, Ended(s, tx))
  {
    EndedUnpublished(s, tx);
    hide Released;
    server.Commit(tx);
  }

  method RollBack(server: Server, d: Deployment, s: State, tx: TxId)
    requires Shows(server, d, s)
    modifies server
    ensures Shows(server, d, Ended(s, tx))
  {
    EndedUnpublished(s, tx);
    hide Unpublished, Released;
    server.Rollback(tx);
  }

  /** The loop over candidates goes on, or the claim commits empty-handed. */
  method ConsiderRest(server: Server, d: Deployment, s: State, tx: TxId, candidates: seq<Candidate>,
                      passedOver: set<UserId>, owned: set<UserId>)
    requires Shows(server, d, s) && tx in s.txs && !Allocated(s.txs[tx])
    modifies server
    ensures Shows(server, d, Considered(s, tx, candidates, passedOver, owned))
  {
    if candidates == [] {
      CommitNothing(server, d, s, tx);
    } else {
      StagedUnpublished(s, tx, Considering(candidates, passedOver, owned));
    }
  }

  method TryCandidate(server: Server, d: Deployment, s: State, tx: TxId)
    requires Shows(server, d, s) && Enabled(d, s, TryOwner(tx))
    modifies server
    ensures Shows(server, d, OwnerTried(d, s, tx))
  {
    hide Unpublished, Considered, Tried, Holds;
    var Considering(candidates, passedOver, owned) := s.txs[tx].stage;
    var user := candidates[0].user;
    if user in passedOver {
      ConsiderRest(server, d, s, tx, candidates[1..], passedOver, owned);
    } else {
      var locked := server.TryLockUserEntitlementScope(tx, user);
      if locked {
        StagedUnpublished(s, tx, Owning(candidates, passedOver, owned + {user}));
        SameUnpublished(WithStage(s, tx, Owning(candidates, passedOver, owned + {user})), OwnerTried(d, s, tx));
      } else {
        ConsiderRest(server, d, s, tx, candidates[1..], passedOver + {user}, owned);
      }
    }
  }

  method DecideCandidate(server: Server, d: Deployment, s: State, tx: TxId)
    requires Shows(server, d, s) && Enabled(d, s, DecideOwner(tx))
    modifies server
    ensures Shows(server, d, OwnerDecided(s, tx))
  {
    hide Unpublished, Considered, RowFree, PlanOf, WithinLimit;
    var Owning(candidates, passedOver, owned) := s.txs[tx].stage;
    var c := candidates[0];
    if !WithinLimit(PlanOf(s, c.user), c.ownerRunning + 1) {
      ConsiderRest(server, d, s, tx, candidates[1..], passedOver + {c.user}, owned);
    } else if c.run in s.runs && s.runs[c.run].job.Queued? && RowFree(s, c.run) {
      StagedUnpublished(s, tx, Taking(c, owned));
    } else {
      ConsiderRest(server, d, s, tx, candidates[1..], passedOver, owned);
    }
  }

  /** A request for a lock, or a read, by a transaction that goes on. */
  method Ask(server: Server, d: Deployment, s: State, e: Step)
    requires Shows(server, d, s) && Enabled(d, s, e)
    requires e.RequestOwner? || e.RequestCounter? || e.RequestAdmission? || e.AllocateNumber?
    modifies server
    ensures Shows(server, d, Next(d, s, e))
  {
    hide Unpublished, Requested, Holds;
    match e
    case RequestOwner(tx) =>
      StagedUnpublished(s, tx, OwnerLock);
      SameUnpublished(WithStage(s, tx, OwnerLock), Next(d, s, e));
      server.LockUserEntitlementScope(tx, s.txs[tx].program.user);
    case RequestCounter(tx) =>
      StagedUnpublished(s, tx, CounterLock);
      SameUnpublished(WithStage(s, tx, CounterLock), Next(d, s, e));
      server.LockCounterRow(tx, s.txs[tx].program.user);
    case RequestAdmission(tx) =>
      StagedUnpublished(s, tx, AdmissionLock);
      SameUnpublished(WithStage(s, tx, AdmissionLock), Next(d, s, e));
      server.LockBacktestAdmission(tx);
    case AllocateNumber(tx) => var _ := AllocateFor(server, d, s, tx);
  }

  /** The number read from the server is the one the transaction goes on with. */
  method AllocateFor(server: Server, d: Deployment, s: State, tx: TxId) returns (number: nat)
    requires Shows(server, d, s) && Enabled(d, s, AllocateNumber(tx))
    modifies server
    ensures Next(d, s, AllocateNumber(tx)) == WithStage(s, tx, Numbered(number))
    ensures Shows(server, d, Next(d, s, AllocateNumber(tx)))
  {
    assert tx !in Unpublished(s);
    NumberedUnpublished(s, tx, NextNumber(s.counters, s.txs[tx].program.user));
    hide Unpublished, NextNumber, Holds;
    number := server.AllocateBacktestRunNumber(tx, s.txs[tx].program.user);
  }

  method Count(server: Server, d: Deployment, s: State, e: Step)
    requires Shows(server, d, s) && Enabled(d, s, e) && (e.CountInFlight? || e.CountExecuting?)
    modifies server
    ensures Shows(server, d, Next(d, s, e))
  {
    hide Unpublished, InFlight, Executing, WithinLimit, Ended, Holds;
    var tx := e.tx;
    if e.CountInFlight? {
      if WithinLimit(s.txs[tx].stage.limit, |InFlight(s, s.txs[tx].program.user)| + 1) {
        StagedUnpublished(s, tx, Admitted);
      } else {
        RollBack(server, d, s, tx);
      }
    } else {
      if d.globalMaxRunning.Some? && |Executing(s, s.txs[tx].program.now)| >= d.globalMaxRunning.value {
        CommitNothing(server, d, s, tx);
      } else {
        StagedUnpublished(s, tx, SlotFree);
      }
    }
  }

  /** Steps outside the server's locks and counters. */
  lemma Elsewhere(d: Deployment, s: State, e: Step)
    requires Enabled(d, s, e) && (e.Begin? || e.ReadPlan? || e.Tick? || IsStatement(e))
    ensures Unpublished(Next(d, s, e)) == Unpublished(s)
    ensures Next(d, s, e).locks == s.locks && Next(d, s, e).counters == s.counters
  {
    hide Unpublished, Holds, PlanOf, RowFree;
    if e.ReadPlan? { StagedUnpublished(s, e.tx, Planned(PlanOf(s, s.txs[e.tx].program.user))); }
    else { SameUnpublished(s, Next(d, s, e)); }
  }

  /** Any step of the queue, carried out on the server. */
  method Execute(server: Server, d: Deployment, s: State, e: Step)
    requires Shows(server, d, s) && Enabled(d, s, e)
    modifies server
    ensures Shows(server, d, Next(d, s, e))
  {
    hide Shows, Counted, SlotChecked, OwnerTried, OwnerDecided, Considered, Published, Holds, ArePeeked, Committable;
    if e.RequestOwner? || e.RequestCounter? || e.RequestAdmission? || e.AllocateNumber? {
      Ask(server, d, s, e);
    } else if e.CountInFlight? || e.CountExecuting? {
      Count(server, d, s, e);
    } else if e.Peek? {
      ConsiderRest(server, d, s, e.tx, e.candidates, {}, {});
    } else if e.TryOwner? {
      TryCandidate(server, d, s, e.tx);
    } else if e.DecideOwner? {
      DecideCandidate(server, d, s, e.tx);
    } else if e.Commit? {
      CommitPublished(server, d, s, e.tx);
    } else if e.Abort? {
      RollBack(server, d, s, e.tx);
    } else {
      Unaffected(server, d, s, e);
    }
  }

  lemma Unaffected(server: Server, d: Deployment, s: State, e: Step)
    requires Shows(server, d, s) && Enabled(d, s, e) && (e.Begin? || e.ReadPlan? || e.Tick? || IsStatement(e))
    ensures Shows(server, d, Next(d, s, e))
  {
    Elsewhere(d, s, e);
    hide Next, Enabled, Unpublished;
  }

  // ---- Runs -----------------------------------------------------------------------------------

  /** A number written and not yet published belongs to the holder of its counter row and is the next one. */
  ghost predicate NumbersAreReserved(server: Server)
    reads server
  {
    forall tx, user :: tx in server.uncommitted && user in server.uncommitted[tx] ==>
      && Holds(server.locks, tx, CounterRow(user))
      && server.uncommitted[tx][user] == NextNumber(server.lastRunNumber, user)
  }

  lemma ShownAreReserved(server: Server, d: Deployment, s: State)
    requires Shows(server, d, s) && LockTable(d, s) && Allocations(s)
    ensures NumbersAreReserved(server)
  {
    hide LockTable, Holds;
    forall tx, user | tx in server.uncommitted && user in server.uncommitted[tx]
      ensures Holds(server.locks, tx, CounterRow(user))
      ensures server.uncommitted[tx][user] == NextNumber(server.lastRunNumber, user)
    {
      NumberedHoldsRow(d, s, tx);
      assert AllocationIsNext(s, tx);
    }
  }

  lemma {:induction false} PrefixIsRun(d: Deployment, plans: map<UserId, Limit>, steps: seq<Step>, i: nat)
    requires IsRun(d, plans, steps) && i < |steps|
    ensures IsRun(d, plans, steps[..i]) && Enabled(d, After(d, plans, steps[..i]), steps[i])
    ensures IsRun(d, plans, steps[..i + 1])
    ensures After(d, plans, steps[..i + 1]) == Next(d, After(d, plans, steps[..i]), steps[i])
    decreases |steps|
  {
    hide Enabled, Next;
    if i == |steps| - 1 {
      assert steps[..i + 1] == steps;
    } else {
      var before := steps[..|steps| - 1];
      assert before[..i] == steps[..i] && before[..i + 1] == steps[..i + 1];
      PrefixIsRun(d, plans, before, i);
    }
  }

  /** After any run the server stands where the queue stands. */
  method ExecuteRun(d: Deployment, plans: map<UserId, Limit>, steps: seq<Step>) returns (server: Server)
    requires IsRun(d, plans, steps)
    ensures fresh(server) && Shows(server, d, After(d, plans, steps))
    ensures NumbersAreReserved(server)
  {
    server := new Server(d.hashtext);
    var s := Initial(plans);
    assert steps[..0] == [];
    assert Unpublished(s) == map[];
    hide Next, Enabled, Unpublished;
    for i := 0 to |steps|
      invariant IsRun(d, plans, steps[..i]) && s == After(d, plans, steps[..i])
      invariant Shows(server, d, s)
    {
      PrefixIsRun(d, plans, steps, i);
      Execute(server, d, s, steps[i]);
      s := Next(d, s, steps[i]);
    }
    assert steps[..|steps|] == steps;
    AlwaysLockTable(d, plans, steps);
    AlwaysAllocations(d, plans, steps);
    ShownAreReserved(server, d, s);
  }
}
