/** Interleavings of two instances (two CassandraStorage objects sharing one
    keyspace), each step one atomic statement. */
module Scenarios {
  import opened Types
  import opened Keyspace
  import opened Storage

  /** Two instances racing for overlapping replicas of a run: at most one of
      the two lock batches is applied. */
  method RaceForNodes(a: CassandraStorage, b: CassandraStorage, run: RunId,
                      segA: SegmentId, nodesA: set<Node>, segB: SegmentId, nodesB: set<Node>)
    returns (lockedA: bool, lockedB: bool)
    requires a.store == b.store && a.reaperInstanceId != b.reaperInstanceId
    requires nodesA * nodesB != {}
    modifies a.store`runningRepairs
    ensures !(lockedA && lockedB)
    ensures old(Lockable(Partition(a.store.runningRepairs, run), nodesA, a.store.now)) ==>
      && lockedA && !lockedB
      && OwnedBy(Partition(b.store.runningRepairs, run), nodesA, a.reaperInstanceId, b.store.now)
  {
    lockedA := a.LockRunningRepairsForNodes(run, segA, nodesA);
    lockedB := b.LockRunningRepairsForNodes(run, segB, nodesB);
    if lockedA {
      var n :| n in nodesA * nodesB;
      assert OwnerOf(Partition(b.store.runningRepairs, run), n, b.store.now) == Some(a.reaperInstanceId);
    }
  }

  /** A lock left behind by an instance that died is taken over by another
      instance once LEAD_DURATION has passed. */
  method LockTakeoverAfterExpiry(a: CassandraStorage, b: CassandraStorage, run: RunId,
                                 segA: SegmentId, segB: SegmentId, nodes: set<Node>)
    returns (lockedA: bool, lockedB: bool)
    requires a.store == b.store
    modifies a.store`runningRepairs, a.store`now
    ensures lockedA ==> lockedB
    ensures lockedB ==> OwnedBy(Partition(b.store.runningRepairs, run), nodes, b.reaperInstanceId, b.store.now)
  {
    lockedA := a.LockRunningRepairsForNodes(run, segA, nodes);
    a.store.Tick(LeadDuration);
    if lockedA {
      LockExpires(old(Partition(a.store.runningRepairs, run)), nodes, a.reaperInstanceId, a.host, segA,
                  a.store.now - LeadDuration, a.store.now);
    }
    lockedB := b.LockRunningRepairsForNodes(run, segB, nodes);
    if lockedB {
      assert Partition(b.store.runningRepairs, run) == b.store.runningRepairs[run];
    }
  }

  /** A lease released by its holder can be taken by any instance. */
  method ReleaseThenTake(a: CassandraStorage, b: CassandraStorage, id: LeaseId, ttl: nat)
    returns (released: Result<bool>, taken: bool)
    requires a.store == b.store
    modifies a.store`leader
    ensures released == Success(true) ==> taken
    ensures taken && ttl > 0 ==> HoldsLease(b.store.leader, id, b.reaperInstanceId, b.store.now)
  {
    released := a.ReleaseLead(Some(id));
    taken := b.TakeLead(id, ttl);
  }

  /** A lease whose holder stops renewing it can be taken by another instance
      once its TTL has run out. */
  method LeaseTakeoverAfterExpiry(a: CassandraStorage, b: CassandraStorage, id: LeaseId, ttl: nat)
    returns (takenA: bool, takenB: bool)
    requires a.store == b.store
    requires ttl > 0
    modifies a.store`leader, a.store`now
    ensures takenA ==> takenB
    ensures takenB ==> HoldsLease(b.store.leader, id, b.reaperInstanceId, b.store.now)
  {
    takenA := a.TakeLead(id, ttl);
    a.store.Tick(ttl);
    if takenA {
      LeaseExpires(a.store.leader, id, a.store.now, a.store.now, a.store.now);
    }
    takenB := b.TakeLead(id, ttl);
  }

  /** Renewals by the holder keep the lease with the holder; another instance
      cannot take it meanwhile. */
  method RenewKeepsOwner(a: CassandraStorage, b: CassandraStorage, id: LeaseId, ttl: nat)
    returns (taken: bool, renewed: Result<bool>, stolen: bool)
    requires a.store == b.store && a.reaperInstanceId != b.reaperInstanceId
    requires ttl > 0
    modifies a.store`leader
    ensures taken ==> renewed == Success(true) && !stolen
    ensures taken ==> HoldsLease(a.store.leader, id, a.reaperInstanceId, a.store.now)
  {
    taken := a.TakeLead(id, ttl);
    renewed := a.RenewLead(id, ttl);
    stolen := b.TakeLead(id, ttl);
  }

  /** A renewal with a shorter TTL than the one the lease was taken with
      shortens only the columns: once they expire the holder can no longer
      renew, yet the row marker of the INSERT keeps the row, so nobody can
      take the lease until the first TTL runs out. */
  method ShortRenewalLeavesRowBehind(a: CassandraStorage, b: CassandraStorage, id: LeaseId)
    returns (taken: bool, renewed: Result<bool>, renewedLater: Result<bool>, stolen: bool)
    requires a.store == b.store
    modifies a.store`leader, a.store`now
    ensures taken ==> renewed == Success(true)
    ensures taken ==> renewedLater != Success(true) && !stolen
  {
    taken := a.TakeLead(id, 600);
    renewed := a.RenewLead(id, LeadDuration);
    a.store.Tick(200);
    renewedLater := a.RenewLead(id, LeadDuration);
    stolen := b.TakeLead(id, LeadDuration);
  }
}
