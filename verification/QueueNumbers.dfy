/** Run numbers: the k-th run a user commits has number k, whatever interleaves, aborts or is deleted. */
module QueueNumbers {
  import opened Limits
  import opened LockQueues
  import opened BacktestQueue
  import opened QueueLocks

  /** The last number committed for a user; none yet counts as zero. */
  function LastNumber(s: State, user: UserId): nat { if user in s.counters then s.counters[user] else 0 }

  predicate CreatesRun(p: Program) { p.Submit? || p.Record? }

  /** The numbers of the runs a user has committed, in the order of their commits. */
  function Issued(d: Deployment, plans: map<UserId, Limit>, steps: seq<Step>, user: UserId): seq<nat>
    requires IsRun(d, plans, steps)
    decreases |steps|
  {
    if steps == [] then []
    else
      Issued(d, plans, steps[..|steps| - 1], user)
        + IssuedBy(d, After(d, plans, steps[..|steps| - 1]), steps[|steps| - 1], user)
  }

  function IssuedBy(d: Deployment, s: State, e: Step, user: UserId): seq<nat>
    requires Enabled(d, s, e)
  {
    if e.Commit? && CreatesRun(s.txs[e.tx].program) && s.txs[e.tx].program.user == user then [s.txs[e.tx].stage.number]
    else []
  }

  /** A number allocated and not yet committed is the next one. */
  ghost predicate AllocationIsNext(s: State, tx: TxId)
    requires tx in s.txs
  {
    CreatesRun(s.txs[tx].program) && s.txs[tx].stage.Numbered? ==>
      s.txs[tx].stage.number == LastNumber(s, s.txs[tx].program.user) + 1
  }

  ghost predicate Allocations(s: State) { forall tx :: tx in s.txs ==> AllocationIsNext(s, tx) }

  lemma NumberedHoldsRow(d: Deployment, s: State, tx: TxId)
    requires LockTable(d, s) && tx in s.txs && CreatesRun(s.txs[tx].program) && s.txs[tx].stage.Numbered?
    ensures Holds(s.locks, tx, CounterRow(s.txs[tx].program.user))
  {
    assert LocksAre(d, s, tx);
    hide OwnerScope, WellFormed;
  }

  /** A commit that publishes a number does not disturb what another transaction has allocated. */
  lemma CommitKeepsAllocation(d: Deployment, s: State, tx: TxId, x: TxId)
    requires LockTable(d, s) && Allocations(s) && tx in s.txs && x in s.txs && x != tx && Committable(d, s, tx)
    ensures AllocationIsNext(Published(s, tx), x)
  {
    assert AllocationIsNext(s, x);
    hide LockTable, Holds, OwnerScope;
    if CreatesRun(s.txs[tx].program) && CreatesRun(s.txs[x].program) && s.txs[x].stage.Numbered?
       && s.txs[tx].program.user == s.txs[x].program.user {
      NumberedHoldsRow(d, s, tx);
      NumberedHoldsRow(d, s, x);
      HoldersAreOne(s.locks, tx, x, CounterRow(s.txs[tx].program.user));
    }
  }

  lemma CommitKeepsAllocations(d: Deployment, s: State, tx: TxId)
    requires LockTable(d, s) && Allocations(s) && tx in s.txs && Committable(d, s, tx)
    ensures Allocations(Ended(Published(s, tx), tx))
  {
    PublishedLocks(s, tx);
    var t := Ended(Published(s, tx), tx);
    hide LockTable, Published, Committable, Released;
    forall x | x in t.txs ensures AllocationIsNext(t, x) { CommitKeepsAllocation(d, s, tx, x); }
  }

  /** The other transactions stay where they are, and only an allocation reaches a number. */
  ghost predicate OthersStayed(s: State, t: State, tx: TxId) {
    && (forall x :: x in t.txs && x != tx ==> x in s.txs && t.txs[x] == s.txs[x])
    && (tx in t.txs ==> !t.txs[tx].stage.Numbered? || !CreatesRun(t.txs[tx].program))
  }

  lemma OthersStay(d: Deployment, s: State, e: Step)
    requires Enabled(d, s, e) && !e.Commit? && !e.Tick? && !IsStatement(e) && !e.AllocateNumber?
    ensures OthersStayed(s, Next(d, s, e), e.tx)
  {
    hide InFlight, Executing, ArePeeked, Holds, Requested, Released, WithinLimit, PlanOf, OwnerScope, RowFree,
      OwnerTried, OwnerDecided, Considered;
    if e.Peek? || e.TryOwner? || e.DecideOwner? { ConsideringGoesOn(d, s, e); }
  }

  lemma NextKeepsAllocations(d: Deployment, s: State, e: Step)
    requires LockTable(d, s) && Allocations(s) && Enabled(d, s, e)
    ensures Allocations(Next(d, s, e))
  {
    var t := Next(d, s, e);
    if e.Commit? {
      CommitKeepsAllocations(d, s, e.tx);
    } else if e.Tick? || IsStatement(e) {
      StatementsLeaveTransactions(d, s, e);
      hide Next, Enabled, LockTable;
      forall x | x in t.txs ensures AllocationIsNext(t, x) { assert AllocationIsNext(s, x); }
    } else {
      OnlyCommitPublishes(d, s, e);
      if e.AllocateNumber? { AllocatedIsNext(d, s, e.tx); } else { OthersStay(d, s, e); }
      hide Enabled, LockTable;
      forall x | x in t.txs ensures AllocationIsNext(t, x) { if x != e.tx { assert AllocationIsNext(s, x); } }
    }
  }

  lemma AllocatedIsNext(d: Deployment, s: State, tx: TxId)
    requires Enabled(d, s, AllocateNumber(tx))
    ensures var t := Next(d, s, AllocateNumber(tx));
      && tx in t.txs && AllocationIsNext(t, tx)
      && forall x :: x in t.txs && x != tx ==> x in s.txs && t.txs[x] == s.txs[x]
  {
    hide Holds;
  }

  lemma StatementsLeaveTransactions(d: Deployment, s: State, e: Step)
    requires Enabled(d, s, e) && (e.Tick? || IsStatement(e))
    ensures Next(d, s, e).txs == s.txs && Next(d, s, e).counters == s.counters && Next(d, s, e).nextRun == s.nextRun
    ensures forall r :: r in Next(d, s, e).runs ==>
      r in s.runs && Next(d, s, e).runs[r].user == s.runs[r].user && Next(d, s, e).runs[r].number == s.runs[r].number
  {
    hide RowFree;
  }

  lemma {:induction false} AlwaysAllocations(d: Deployment, plans: map<UserId, Limit>, steps: seq<Step>)
    requires IsRun(d, plans, steps)
    ensures Allocations(After(d, plans, steps))
    decreases |steps|
  {
    if steps != [] {
      AlwaysAllocations(d, plans, steps[..|steps| - 1]);
      AlwaysLockTable(d, plans, steps[..|steps| - 1]);
      hide LockTable, Allocations, Next;
      NextKeepsAllocations(d, After(d, plans, steps[..|steps| - 1]), steps[|steps| - 1]);
    }
  }

  // ---- Numbers --------------------------------------------------------------------------------

  /** What one step does to a user's last number. */
  lemma LastNumberMoves(d: Deployment, s: State, e: Step, user: UserId)
    requires Allocations(s) && Enabled(d, s, e)
    ensures var issued := IssuedBy(d, s, e, user);
      && LastNumber(Next(d, s, e), user) == LastNumber(s, user) + |issued|
      && (issued == [] || issued == [LastNumber(s, user) + 1])
  {
    if e.Commit? {
      assert AllocationIsNext(s, e.tx);
      hide Released, Holds, OwnerScope, Allocations;
    } else if e.Tick? || IsStatement(e) {
      StatementsLeaveTransactions(d, s, e);
      hide Next;
    } else {
      OnlyCommitPublishes(d, s, e);
      hide Next;
    }
  }

  /** In every run the k-th run a user commits has number k: none is skipped, repeated or issued again. */
  lemma {:induction false} KthRunHasNumberK(d: Deployment, plans: map<UserId, Limit>, steps: seq<Step>, user: UserId)
    requires IsRun(d, plans, steps)
    ensures |Issued(d, plans, steps, user)| == LastNumber(After(d, plans, steps), user)
    ensures forall k :: 0 <= k < |Issued(d, plans, steps, user)| ==> Issued(d, plans, steps, user)[k] == k + 1
    decreases |steps|
  {
    if steps != [] {
      var before, e := steps[..|steps| - 1], steps[|steps| - 1];
      KthRunHasNumberK(d, plans, before, user);
      AlwaysAllocations(d, plans, before);
      hide LastNumber, Allocations, Next, IssuedBy;
      LastNumberMoves(d, After(d, plans, before), e, user);
    }
  }

  /** Every run carries a number of its owner's that has been issued, and no other run of the owner carries it. */
  ghost predicate NumbersInOrder(s: State) {
    && (forall r :: r in s.runs ==> r < s.nextRun && 1 <= s.runs[r].number <= LastNumber(s, s.runs[r].user))
    && (forall q, r :: q in s.runs && r in s.runs && q != r && s.runs[q].user == s.runs[r].user ==>
      s.runs[q].number != s.runs[r].number)
  }

  lemma CommitKeepsNumbers(d: Deployment, s: State, tx: TxId)
    requires Allocations(s) && NumbersInOrder(s) && tx in s.txs && Committable(d, s, tx)
    ensures NumbersInOrder(Published(s, tx))
  {
    assert AllocationIsNext(s, tx);
    hide Allocations, Committable;
    if CreatesRun(s.txs[tx].program) && s.txs[tx].stage.Numbered? {
      NewNumber(s, s.txs[tx].program.user, s.txs[tx].stage.number, if s.txs[tx].program.Submit? then Queued else Closed);
    }
  }

  lemma NewNumber(s: State, user: UserId, number: nat, job: Job)
    requires NumbersInOrder(s) && number == LastNumber(s, user) + 1
    ensures NumbersInOrder(WithNewRun(s, user, number, job))
  {
  }

  lemma NextKeepsNumbers(d: Deployment, s: State, e: Step)
    requires Allocations(s) && NumbersInOrder(s) && Enabled(d, s, e)
    ensures NumbersInOrder(Next(d, s, e))
  {
    hide Allocations;
    var t := Next(d, s, e);
    if e.Commit? {
      CommitKeepsNumbers(d, s, e.tx);
      hide Published, Committable, Released;
    } else if e.Tick? || IsStatement(e) {
      StatementsLeaveTransactions(d, s, e);
      hide Next, Enabled;
    } else {
      OnlyCommitPublishes(d, s, e);
      hide Next, Enabled;
    }
  }

  /** In every reachable state a user's runs have distinct numbers, each of them issued by a commit. */
  lemma {:induction false} RunNumbersAreUnique(d: Deployment, plans: map<UserId, Limit>, steps: seq<Step>)
    requires IsRun(d, plans, steps)
    ensures NumbersInOrder(After(d, plans, steps))
    decreases |steps|
  {
    if steps != [] {
      RunNumbersAreUnique(d, plans, steps[..|steps| - 1]);
      AlwaysAllocations(d, plans, steps[..|steps| - 1]);
      hide NumbersInOrder, Allocations, Next;
      NextKeepsNumbers(d, After(d, plans, steps[..|steps| - 1]), steps[|steps| - 1]);
    }
  }

  /** A number issued once, even to a run since deleted, is never issued to a later run. */
  lemma {:induction false} NeverReissued(d: Deployment, plans: map<UserId, Limit>, steps: seq<Step>, i: nat, user: UserId)
    requires IsRun(d, plans, steps) && i <= |steps|
    ensures IsRun(d, plans, steps[..i])
    ensures var early, all := Issued(d, plans, steps[..i], user), Issued(d, plans, steps, user);
      && early <= all
      && forall k, n :: |early| <= k < |all| && n in early ==> all[k] != n
    decreases |steps|
  {
    if i == |steps| {
      assert steps[..i] == steps;
    } else {
      var before := steps[..|steps| - 1];
      assert before[..i] == steps[..i];
      NeverReissued(d, plans, before, i, user);
      KthRunHasNumberK(d, plans, steps, user);
      hide Next, IssuedBy;
      var early, all := Issued(d, plans, steps[..i], user), Issued(d, plans, steps, user);
      assert forall k :: 0 <= k < |early| ==> early[k] == all[k];
    }
  }
}
