/**
 * Transaction-scoped locks of `packages/database/src`: a queue per lock whose head holds it, released with the
 * transaction. Advisory locks are keyed by a hash of the user, which two users may share.
 */
module LockQueues {
  import opened Collections

  type TxId = nat
  type UserId = nat

  datatype LockId =
    | Admission
    | UserScope(key: int)
    | CounterRow(user: UserId)

  /** Who holds each lock (first) and who waits for it (the rest, in order of request). */
  type Locks = map<LockId, seq<TxId>>

  function Queue(locks: Locks, l: LockId): seq<TxId> { if l in locks then locks[l] else [] }

  predicate Holds(locks: Locks, tx: TxId, l: LockId) { Queue(locks, l) != [] && Queue(locks, l)[0] == tx }

  predicate Waits(locks: Locks, tx: TxId, l: LockId) { tx in Queue(locks, l) && !Holds(locks, tx, l) }

  /** A blocking request: the lock if it is free, or else a place in its queue; holding it already changes nothing. */
  function Requested(locks: Locks, tx: TxId, l: LockId): Locks {
    if tx in Queue(locks, l) then locks else locks[l := Queue(locks, l) + [tx]]
  }

  /** A request that never waits. */
  function Tried(locks: Locks, tx: TxId, l: LockId): Locks {
    if Queue(locks, l) == [] then locks[l := [tx]] else locks
  }

  function Without(queue: seq<TxId>, tx: TxId): (r: seq<TxId>)
    ensures forall t :: t in r <==> t in queue && t != tx
  {
    if queue == [] then []
    else
      assert queue == [queue[0]] + queue[1..];
      (if queue[0] == tx then [] else [queue[0]]) + Without(queue[1..], tx)
  }

  /** Commit or rollback: the transaction leaves every queue. */
  function Released(locks: Locks, tx: TxId): Locks { map l | l in locks :: Without(locks[l], tx) }

  ghost predicate WellFormed(locks: Locks) { forall l :: Distinct(Queue(locks, l)) }

  lemma {:induction false} WithoutKeepsApart(queue: seq<TxId>, tx: TxId)
    requires Distinct(queue)
    ensures Distinct(Without(queue, tx))
    ensures tx !in queue ==> Without(queue, tx) == queue
  {
    if queue != [] {
      WithoutKeepsApart(queue[1..], tx);
      var rest := Without(queue[1..], tx);
      forall i | 0 <= i < |rest| ensures rest[i] != queue[0] { assert rest[i] in queue[1..]; }
    }
  }

  /** Releasing another transaction's locks takes nothing from this one. */
  lemma ReleaseKeeps(locks: Locks, tx: TxId, other: TxId, l: LockId)
    requires tx != other
    ensures tx in Queue(Released(locks, other), l) <==> tx in Queue(locks, l)
    ensures Holds(locks, tx, l) ==> Holds(Released(locks, other), tx, l)
  {
  }

  lemma ReleaseWellFormed(locks: Locks, tx: TxId)
    requires WellFormed(locks)
    ensures WellFormed(Released(locks, tx))
    ensures forall l :: tx !in Queue(Released(locks, tx), l)
  {
    forall l ensures Distinct(Queue(Released(locks, tx), l)) {
      assert Distinct(Queue(locks, l));
      WithoutKeepsApart(Queue(locks, l), tx);
    }
  }

  /** At most one transaction holds a lock. */
  lemma HoldersAreOne(locks: Locks, tx: TxId, other: TxId, l: LockId)
    requires Holds(locks, tx, l) && Holds(locks, other, l)
    ensures tx == other
  {
  }

  // ---- The statements -------------------------------------------------------------------------

  /** The server's lock table and the committed run-number counters. */
  class Server {
    const hashtext: UserId -> int
    var locks: Locks
    var lastRunNumber: map<UserId, nat>
    var uncommitted: map<TxId, map<UserId, nat>>

    constructor (hashtext: UserId -> int)
      ensures this.hashtext == hashtext && locks == map[] && lastRunNumber == map[] && uncommitted == map[]
    {
      this.hashtext := hashtext;
      locks, lastRunNumber, uncommitted := map[], map[], map[];
    }

    /** `lockUserEntitlementScope`: the caller goes on once it holds the lock. */
    method LockUserEntitlementScope(tx: TxId, user: UserId)
      modifies this`locks
      ensures locks == Requested(old(locks), tx, UserScope(hashtext(user)))
      ensures tx in Queue(locks, UserScope(hashtext(user)))
    {
      var queue := Queue(locks, UserScope(hashtext(user)));
      if tx !in queue {
        locks := locks[UserScope(hashtext(user)) := queue + [tx]];
      }
    }

    /** `tryLockUserEntitlementScope`: true exactly when the caller holds the lock on return. */
    method TryLockUserEntitlementScope(tx: TxId, user: UserId) returns (locked: bool)
      modifies this`locks
      ensures locks == Tried(old(locks), tx, UserScope(hashtext(user)))
      ensures locked <==> Holds(locks, tx, UserScope(hashtext(user)))
      ensures !locked ==> locks == old(locks)
    {
      var queue := Queue(locks, UserScope(hashtext(user)));
      if queue == [] {
        locks := locks[UserScope(hashtext(user)) := [tx]];
        return true;
      }
      return queue[0] == tx;
    }

    /** `lockBacktestAdmission`. */
    method LockBacktestAdmission(tx: TxId)
      modifies this`locks
      ensures locks == Requested(old(locks), tx, Admission)
      ensures tx in Queue(locks, Admission)
    {
      var queue := Queue(locks, Admission);
      if tx !in queue {
        locks := locks[Admission := queue + [tx]];
      }
    }

    /** The upsert's wait for the counter row, or for the transaction inserting it. */
    method LockCounterRow(tx: TxId, user: UserId)
      modifies this`locks
      ensures locks == Requested(old(locks), tx, CounterRow(user))
      ensures tx in Queue(locks, CounterRow(user))
    {
      var queue := Queue(locks, CounterRow(user));
      if tx !in queue {
        locks := locks[CounterRow(user) := queue + [tx]];
      }
    }

    /** `allocateBacktestRunNumber`, once the row is held: one more than the last number this transaction can see. */
    method AllocateBacktestRunNumber(tx: TxId, user: UserId) returns (number: nat)
      requires Holds(locks, tx, CounterRow(user))
      modifies this`uncommitted
      ensures number == NextNumber(Seen(lastRunNumber, old(uncommitted), tx), user) && number >= 1
      ensures uncommitted == old(uncommitted)[tx := (if tx in old(uncommitted) then old(uncommitted)[tx] else map[])[user := number]]
    {
      var own := if tx in uncommitted then uncommitted[tx] else map[];
      var seen := lastRunNumber + own;
      if user in seen {
        number := seen[user] + 1;
      } else {
        number := 1;
      }
      uncommitted := uncommitted[tx := own[user := number]];
    }

    /** Commit publishes what the transaction wrote and releases its locks. */
    method Commit(tx: TxId)
      modifies this
      ensures lastRunNumber == Seen(old(lastRunNumber), old(uncommitted), tx)
      ensures uncommitted == old(uncommitted) - {tx} && locks == Released(old(locks), tx)
    {
      if tx in uncommitted {
        lastRunNumber := lastRunNumber + uncommitted[tx];
      }
      uncommitted := uncommitted - {tx};
      locks := map l | l in locks :: Without(locks[l], tx);
    }

    /** Rollback publishes nothing. */
    method Rollback(tx: TxId)
      modifies this`uncommitted, this`locks
      ensures uncommitted == old(uncommitted) - {tx} && locks == Released(old(locks), tx)
    {
      uncommitted := uncommitted - {tx};
      locks := map l | l in locks :: Without(locks[l], tx);
    }
  }

  /** The counters a statement of `tx` reads: the committed ones, under its own writes. */
  function Seen(committed: map<UserId, nat>, uncommitted: map<TxId, map<UserId, nat>>, tx: TxId): map<UserId, nat> {
    if tx in uncommitted then committed + uncommitted[tx] else committed
  }

  /** What the upsert stores: 1 for a first row, one more otherwise. */
  function NextNumber(counters: map<UserId, nat>, user: UserId): nat {
    if user in counters then counters[user] + 1 else 1
  }
}
