/** CassandraStorage: one instance's view of the coordination tables. Leases
    (`leader`), per-run node locks (`running_repairs`) and heartbeats
    (`running_reapers`) are changed only through the conditional statements
    below; every method is one atomic step on the shared keyspace. Two objects
    sharing one keyspace are two instances racing. */
module Storage {
  import opened Types
  import opened Keyspace

  /** LEAD_DURATION: the TTL, in seconds, of node locks and default leases. */
  const LeadDuration: nat := 90

  /** A Cassandra release number, compared lexicographically (VersionNumber). */
  datatype Version = Version(major: nat, minor: nat, patch: nat)

  predicate VersionLess(a: Version, b: Version)
  {
    a.major < b.major
    || (a.major == b.major && a.minor < b.minor)
    || (a.major == b.major && a.minor == b.minor && a.patch < b.patch)
  }

  /** The CQL function that turns now() into a timestamp on the lowest
      Cassandra version of the cluster. */
  function TimeUdf(lowest: Version): (udf: string)
    ensures udf == "dateOf" || udf == "toTimestamp"
  {
    if VersionLess(lowest, Version(2, 2, 0)) then "dateOf" else "toTimestamp"
  }

  /** dateOf is chosen exactly for releases before 2.2. */
  lemma TimeUdfBefore22(lowest: Version)
    ensures TimeUdf(lowest) == "dateOf" <==> lowest.major < 2 || (lowest.major == 2 && lowest.minor < 2)
  {
  }

  /** withinRange: an absent range filter admits every segment. */
  function WithinRange(encloses: Encloses, seg: Segment, range: Option<RingRange>): (r: bool)
    ensures range.None? ==> r
    ensures range.Some? ==> (r <==> encloses(range.value, RingRange(seg.startToken, seg.endToken)))
  {
    range.None? || SegmentIsWithinRange(encloses, seg, range.value)
  }

  /** The leader row for `id` as a read at `now` sees it: gone once both its
      marker and its columns have expired. */
  function LiveLeader(leader: map<LeaseId, LeaderRow>, id: LeaseId, now: int): (r: Option<LeaderRow>)
    ensures r.Some? <==> id in leader && (Live(leader[id].markerExpiry, now) || Live(leader[id].expiry, now))
    ensures r.Some? ==> r.value == leader[id]
  {
    if id in leader && RowLive(leader[id], now) then Some(leader[id]) else None
  }

  /** `id` is currently leased by `instance`: reaper_instance_id reads as
      `instance` (once the columns expire it reads as null, even while the
      row itself is still there). */
  predicate HoldsLease(leader: map<LeaseId, LeaderRow>, id: LeaseId, instance: InstanceId, now: int)
  {
    LiveLeader(leader, id, now).Some? && Live(leader[id].expiry, now) && leader[id].owner == instance
  }

  /** The leader row after the renewal UPDATE: new columns, old row marker. */
  function Renewed(row: LeaderRow, instance: InstanceId, host: Host, now: int, ttl: nat): LeaderRow
  {
    row.(owner := instance, host := host, lastHeartbeat := now, expiry := ExpiryFor(now, ttl))
  }

  /** Every node reads as unowned: the lock batch's IF conditions all hold. */
  predicate Lockable(p: map<Node, LockRow>, nodes: set<Node>, now: int)
  {
    forall n :: n in nodes ==> OwnerOf(p, n, now) == None
  }

  /** Every node reads as owned by `instance`: the renew and release conditions. */
  predicate OwnedBy(p: map<Node, LockRow>, nodes: set<Node>, instance: InstanceId, now: int)
  {
    forall n :: n in nodes ==> OwnerOf(p, n, now) == Some(instance)
  }

  /** The partition with `row` written at every node of `nodes`. */
  function Claimed(p: map<Node, LockRow>, nodes: set<Node>, row: LockRow): (q: map<Node, LockRow>)
    ensures q.Keys == p.Keys + nodes
    ensures forall n :: n in nodes ==> q[n] == row
    ensures forall n :: n in p && n !in nodes ==> q[n] == p[n]
  {
    p + map n | n in nodes :: row
  }

  /** The nodes of a run whose lock is held at `now` (getLockedNodesForRun). */
  function LockedNodes(p: map<Node, LockRow>, now: int): (locked: set<Node>)
    ensures forall n :: n in locked <==> OwnerOf(p, n, now).Some?
  {
    set n | n in p && OwnerOf(p, n, now).Some?
  }

  /** The segments justifying the held locks of a run (getLockedSegmentsForRun). */
  function LockedSegments(p: map<Node, LockRow>, now: int): (segments: set<SegmentId>)
    ensures forall s :: s in segments <==> exists n :: n in p && OwnerOf(p, n, now).Some? && p[n].segment == s
  {
    set n | n in p && OwnerOf(p, n, now).Some? :: p[n].segment
  }

  /** While a lock taken at `t` is unexpired, no other instance can lock,
      renew or release any of its nodes. */
  lemma LockIsExclusive(
    p: map<Node, LockRow>, nodes: set<Node>, a: InstanceId, host: Host, seg: SegmentId, t: int,
    other: set<Node>, b: InstanceId, t2: int)
    requires a != b
    requires nodes * other != {}
    requires t <= t2 < t + LeadDuration
    ensures !Lockable(Claimed(p, nodes, Held(host, a, seg, Some(t + LeadDuration))), other, t2)
    ensures !OwnedBy(Claimed(p, nodes, Held(host, a, seg, Some(t + LeadDuration))), other, b, t2)
  {
    var n :| n in nodes * other;
    assert OwnerOf(Claimed(p, nodes, Held(host, a, seg, Some(t + LeadDuration))), n, t2) == Some(a);
  }

  /** A successful lock adds exactly its nodes to the run's locked nodes. */
  lemma LockedNodesAfterLock(p: map<Node, LockRow>, nodes: set<Node>, a: InstanceId, host: Host, seg: SegmentId, t: int)
    requires Lockable(p, nodes, t)
    ensures LockedNodes(Claimed(p, nodes, Held(host, a, seg, Some(t + LeadDuration))), t) == LockedNodes(p, t) + nodes
    ensures LockedSegments(Claimed(p, nodes, Held(host, a, seg, Some(t + LeadDuration))), t)
         == LockedSegments(p, t) + (if nodes == {} then {} else {seg})
  {
    // the nodes had no live owner, so dropping their rows loses no segment
    assert LockedSegments(Claimed(p, nodes, Free), t) == LockedSegments(p, t);
  }

  /** After a successful release none of the released nodes reads as locked,
      and every other node keeps its state. */
  lemma LockedNodesAfterRelease(p: map<Node, LockRow>, nodes: set<Node>, t: int)
    ensures LockedNodes(Claimed(p, nodes, Free), t) == LockedNodes(p, t) - nodes
  {
  }

  /** Once a lock's TTL has run out, its nodes can be locked by anyone (TTL is
      the crash-recovery path for a dead instance's locks). */
  lemma LockExpires(p: map<Node, LockRow>, nodes: set<Node>, a: InstanceId, host: Host, seg: SegmentId, t: int, t2: int)
    requires t2 >= t + LeadDuration
    ensures Lockable(Claimed(p, nodes, Held(host, a, seg, Some(t + LeadDuration))), nodes, t2)
  {
  }

  /** A lease held by one instance cannot be taken, renewed or released by
      another while it is live; once its row is deleted it can be taken by
      anyone (LeaseExpires covers expiry). */
  lemma LeaseIsExclusive(leader: map<LeaseId, LeaderRow>, id: LeaseId, a: InstanceId, b: InstanceId, now: int)
    requires HoldsLease(leader, id, a, now)
    requires a != b
    ensures LiveLeader(leader, id, now).Some?
    ensures !HoldsLease(leader, id, b, now)
    ensures LiveLeader(leader - {id}, id, now).None?
  {
  }

  /** Once both the columns and the row marker of a leader row have expired,
      a read no longer sees the row, so takeLead's IF NOT EXISTS holds for
      anyone: the crash-recovery path for a lease whose holder died. */
  lemma LeaseExpires(leader: map<LeaseId, LeaderRow>, id: LeaseId, e: int, m: int, t2: int)
    requires id in leader && leader[id].expiry == Some(e) && leader[id].markerExpiry == Some(m)
    requires t2 >= e && t2 >= m
    ensures LiveLeader(leader, id, t2).None?
    ensures forall b :: !HoldsLease(leader, id, b, t2)
  {
  }

  class CassandraStorage {
    /** This instance's reaperInstanceId. */
    const reaperInstanceId: InstanceId
    /** AppContext.REAPER_INSTANCE_ADDRESS. */
    const host: Host
    /** The keyspace the session is connected to (shared by all instances). */
    const store: Keyspace
    /** The lowest Cassandra version of the storage cluster. */
    const version: Version
    /** The time function spliced into the prepared statements. */
    const timeUdf: string
    /** Whether the JVM runs with `-ea`. */
    const assertionsEnabled: bool

    constructor (reaperInstanceId: InstanceId, host: Host, store: Keyspace, version: Version, assertionsEnabled: bool)
      ensures this.reaperInstanceId == reaperInstanceId && this.host == host && this.store == store
      ensures this.version == version && this.assertionsEnabled == assertionsEnabled
      ensures timeUdf == TimeUdf(version)
    {
      this.reaperInstanceId := reaperInstanceId;
      this.host := host;
      this.store := store;
      this.version := version;
      this.assertionsEnabled := assertionsEnabled;
      this.timeUdf := TimeUdf(version);
    }

    /** takeLead: INSERT INTO leader ... IF NOT EXISTS USING TTL ttl. */
    method TakeLead(leaderId: LeaseId, ttl: nat) returns (applied: bool)
      modifies store`leader
      ensures applied <==> LiveLeader(old(store.leader), leaderId, store.now).None?
      ensures applied ==> store.leader == old(store.leader)[leaderId :=
        LeaderRow(reaperInstanceId, host, store.now, ExpiryFor(store.now, ttl), ExpiryFor(store.now, ttl))]
      ensures applied ==> HoldsLease(store.leader, leaderId, reaperInstanceId, store.now)
      ensures !applied ==> store.leader == old(store.leader)
    {
      applied := LiveLeader(store.leader, leaderId, store.now).None?;
      if applied {
        var expiry := ExpiryFor(store.now, ttl);
        store.leader := store.leader[leaderId := LeaderRow(reaperInstanceId, host, store.now, expiry, expiry)];
      }
    }

    /** renewLead: UPDATE leader USING TTL ttl SET owner, host, last_heartbeat
        IF reaper_instance_id = this instance. A failed renewal trips
        `assert false` when assertions are enabled. */
    method RenewLead(leaderId: LeaseId, ttl: nat) returns (r: Result<bool>)
      modifies store`leader
      ensures r.Success? || (r.error == AssertionFailed && assertionsEnabled)
      ensures r == Success(true) <==> HoldsLease(old(store.leader), leaderId, reaperInstanceId, store.now)
      ensures r.Failure? ==> !HoldsLease(old(store.leader), leaderId, reaperInstanceId, store.now)
      ensures !HoldsLease(old(store.leader), leaderId, reaperInstanceId, store.now) ==>
        r == (if assertionsEnabled then Failure(AssertionFailed) else Success(false))
      ensures r == Success(true) ==> store.leader == old(store.leader)[leaderId :=
        Renewed(old(store.leader)[leaderId], reaperInstanceId, host, store.now, ttl)]
      ensures r != Success(true) ==> store.leader == old(store.leader)
    {
      var applied := HoldsLease(store.leader, leaderId, reaperInstanceId, store.now);
      if applied {
        store.leader := store.leader[leaderId := Renewed(store.leader[leaderId], reaperInstanceId, host, store.now, ttl)];
        return Success(true);
      }
      if assertionsEnabled {
        return Failure(AssertionFailed);
      }
      return Success(false);
    }

    /** hasLeadOnSegment(UUID): the same renewal with LEAD_DURATION, without the assertion. */
    method HasLeadOnLease(leaderId: LeaseId) returns (applied: bool)
      modifies store`leader
      ensures applied <==> HoldsLease(old(store.leader), leaderId, reaperInstanceId, store.now)
      ensures applied ==> store.leader == old(store.leader)[leaderId :=
        Renewed(old(store.leader)[leaderId], reaperInstanceId, host, store.now, LeadDuration)]
      ensures applied ==> store.leader[leaderId].expiry == Some(store.now + LeadDuration)
      ensures !applied ==> store.leader == old(store.leader)
    {
      applied := HoldsLease(store.leader, leaderId, reaperInstanceId, store.now);
      if applied {
        store.leader := store.leader[leaderId := Renewed(store.leader[leaderId], reaperInstanceId, host, store.now, LeadDuration)];
      }
    }

    /** releaseLead: checkNotNull(leaderId), then DELETE FROM leader IF
        reaper_instance_id = this instance. Not applying is logged (and trips
        `assert false` when assertions are enabled). */
    method ReleaseLead(leaderId: Option<LeaseId>) returns (r: Result<bool>)
      modifies store`leader
      ensures leaderId.None? ==> r == Failure(NullPointer) && store.leader == old(store.leader)
      ensures leaderId.Some? ==>
        (r == Success(true) <==> HoldsLease(old(store.leader), leaderId.value, reaperInstanceId, store.now))
      ensures leaderId.Some? && r.Failure? ==> r.error == AssertionFailed && assertionsEnabled
      ensures leaderId.Some? && !HoldsLease(old(store.leader), leaderId.value, reaperInstanceId, store.now) ==>
        r == (if assertionsEnabled then Failure(AssertionFailed) else Success(false))
      ensures r == Success(true) ==> store.leader == old(store.leader) - {leaderId.value}
      ensures r != Success(true) ==> store.leader == old(store.leader)
    {
      if leaderId.None? {
        return Failure(NullPointer);
      }
      var id := leaderId.value;
      if HoldsLease(store.leader, id, reaperInstanceId, store.now) {
        store.leader := store.leader - {id};
        return Success(true);
      }
      if assertionsEnabled {
        return Failure(AssertionFailed);
      }
      return Success(false);
    }

    /** getLeaders: SELECT * FROM leader (expired rows are not returned). */
    method GetLeaders() returns (ids: set<LeaseId>)
      ensures forall id :: id in ids <==> LiveLeader(store.leader, id, store.now).Some?
    {
      ids := set id | id in store.leader && RowLive(store.leader[id], store.now);
    }

    /** getRunningReapers: the instance ids of running_reapers. */
    method GetRunningReapers() returns (ids: set<InstanceId>)
      ensures ids == store.runningReapers.Keys
    {
      ids := store.runningReapers.Keys;
    }

    /** countRunningReapers: the number of heartbeat rows, floored at one so
        that callers may divide by it. */
    method CountRunningReapers() returns (count: int)
      ensures count >= 1
      ensures |store.runningReapers| > 0 ==> count == |store.runningReapers|
      ensures |store.runningReapers| == 0 ==> count == 1
    {
      var reapers := GetRunningReapers();
      count := if |reapers| > 0 then |reapers| else 1;
    }

    /** saveHeartbeat: an unconditional upsert of this instance's row. */
    method SaveHeartbeat()
      modifies store`runningReapers
      ensures store.runningReapers == old(store.runningReapers)[reaperInstanceId := HeartbeatRow(host, store.now)]
    {
      store.runningReapers := store.runningReapers[reaperInstanceId := HeartbeatRow(host, store.now)];
    }

    /** stop: deletes this instance's heartbeat row. */
    method Stop()
      modifies store`runningReapers
      ensures store.runningReapers == old(store.runningReapers) - {reaperInstanceId}
      ensures reaperInstanceId !in store.runningReapers
    {
      store.runningReapers := store.runningReapers - {reaperInstanceId};
    }

    /** The loop shared by lock, renew and release: one conditional update of
        the run's partition per replica. */
    method BuildBatch(repairId: RunId, replicas: set<Node>, claim: Option<Claim>, ifOwner: Option<InstanceId>)
      returns (batch: seq<LockUpdate>)
      ensures NodesOf(batch) == replicas
      ensures forall i :: 0 <= i < |batch| ==>
        batch[i].run == repairId && batch[i].ttl == LeadDuration && batch[i].claim == claim && batch[i].ifOwner == ifOwner
    {
      batch := [];
      var todo := replicas;
      while todo != {}
        invariant todo <= replicas
        invariant NodesOf(batch) == replicas - todo
        invariant forall i :: 0 <= i < |batch| ==>
          batch[i].run == repairId && batch[i].ttl == LeadDuration && batch[i].claim == claim && batch[i].ifOwner == ifOwner
        decreases todo
      {
        var replica :| replica in todo;
        var u := LockUpdate(repairId, replica, LeadDuration, claim, ifOwner);
        assert NodesOf(batch + [u]) == NodesOf(batch) + {replica} by {
          forall n | n in NodesOf(batch + [u]) ensures n in NodesOf(batch) + {replica} {
            var i :| 0 <= i < |batch + [u]| && (batch + [u])[i].node == n;
            if i < |batch| { assert batch[i].node == n; }
          }
          forall n | n in NodesOf(batch) ensures n in NodesOf(batch + [u]) {
            var i :| 0 <= i < |batch| && batch[i].node == n;
            assert (batch + [u])[i].node == n;
          }
          assert (batch + [u])[|batch|].node == replica;
        }
        batch := batch + [u];
        todo := todo - {replica};
      }
    }

    /** lockRunningRepairsForNodes: one batch of `IF reaper_instance_id = null`
        updates claiming every replica for this instance and segment; applied
        as a whole or not at all. */
    method LockRunningRepairsForNodes(repairId: RunId, segmentId: SegmentId, replicas: set<Node>) returns (applied: bool)
      modifies store`runningRepairs
      ensures applied <==> Lockable(old(Partition(store.runningRepairs, repairId)), replicas, store.now)
      ensures applied ==> store.runningRepairs == old(store.runningRepairs)[repairId :=
        Claimed(old(Partition(store.runningRepairs, repairId)), replicas,
                Held(host, reaperInstanceId, segmentId, Some(store.now + LeadDuration)))]
      ensures applied ==> OwnedBy(Partition(store.runningRepairs, repairId), replicas, reaperInstanceId, store.now)
      ensures !applied ==> store.runningRepairs == old(store.runningRepairs)
    {
      var batch := BuildBatch(repairId, replicas, Some(Claim(host, reaperInstanceId, segmentId)), None);
      ghost var p := Partition(store.runningRepairs, repairId);
      ConditionsHoldUniform(p, batch, store.now, None);
      applied := store.ExecuteBatch(repairId, batch);
      if applied {
        ApplyUniformBatch(p, batch, store.now, Held(host, reaperInstanceId, segmentId, Some(store.now + LeadDuration)));
      }
    }

    /** renewRunningRepairsForNodes: the same batch, conditioned on this
        instance still owning every replica. */
    method RenewRunningRepairsForNodes(repairId: RunId, segmentId: SegmentId, replicas: set<Node>) returns (applied: bool)
      modifies store`runningRepairs
      ensures applied <==> OwnedBy(old(Partition(store.runningRepairs, repairId)), replicas, reaperInstanceId, store.now)
      ensures applied ==> store.runningRepairs == old(store.runningRepairs)[repairId :=
        Claimed(old(Partition(store.runningRepairs, repairId)), replicas,
                Held(host, reaperInstanceId, segmentId, Some(store.now + LeadDuration)))]
      ensures !applied ==> store.runningRepairs == old(store.runningRepairs)
    {
      var batch := BuildBatch(repairId, replicas, Some(Claim(host, reaperInstanceId, segmentId)), Some(reaperInstanceId));
      ghost var p := Partition(store.runningRepairs, repairId);
      ConditionsHoldUniform(p, batch, store.now, Some(reaperInstanceId));
      applied := store.ExecuteBatch(repairId, batch);
      if applied {
        ApplyUniformBatch(p, batch, store.now, Held(host, reaperInstanceId, segmentId, Some(store.now + LeadDuration)));
      }
    }

    /** releaseRunningRepairsForNodes: nulls host, owner and segment of every
        replica, conditioned on this instance owning every replica. */
    method ReleaseRunningRepairsForNodes(repairId: RunId, segmentId: SegmentId, replicas: set<Node>) returns (applied: bool)
      modifies store`runningRepairs
      ensures applied <==> OwnedBy(old(Partition(store.runningRepairs, repairId)), replicas, reaperInstanceId, store.now)
      ensures applied ==> store.runningRepairs == old(store.runningRepairs)[repairId :=
        Claimed(old(Partition(store.runningRepairs, repairId)), replicas, Free)]
      ensures applied ==> LockedNodes(Partition(store.runningRepairs, repairId), store.now) !! replicas
      ensures !applied ==> store.runningRepairs == old(store.runningRepairs)
    {
      var batch := BuildBatch(repairId, replicas, None, Some(reaperInstanceId));
      ghost var p := Partition(store.runningRepairs, repairId);
      ConditionsHoldUniform(p, batch, store.now, Some(reaperInstanceId));
      applied := store.ExecuteBatch(repairId, batch);
      if applied {
        ApplyUniformBatch(p, batch, store.now, Free);
        LockedNodesAfterRelease(p, replicas, store.now);
      }
    }

    /** hasLeadOnSegment(RepairSegment): renews the locks on the segment's replicas. */
    method HasLeadOnSegment(segment: Segment) returns (applied: bool)
      modifies store`runningRepairs
      ensures applied <==> OwnedBy(old(Partition(store.runningRepairs, segment.runId)), segment.replicas.Keys,
                                   reaperInstanceId, store.now)
      ensures applied ==> store.runningRepairs == old(store.runningRepairs)[segment.runId :=
        Claimed(old(Partition(store.runningRepairs, segment.runId)), segment.replicas.Keys,
                Held(host, reaperInstanceId, segment.id, Some(store.now + LeadDuration)))]
      ensures !applied ==> store.runningRepairs == old(store.runningRepairs)
    {
      applied := RenewRunningRepairsForNodes(segment.runId, segment.id, segment.replicas.Keys);
    }

    /** getLockedNodesForRun: the run's nodes whose owner is not null. */
    method GetLockedNodesForRun(runId: RunId) returns (nodes: set<Node>)
      ensures forall n :: n in nodes <==> OwnerOf(Partition(store.runningRepairs, runId), n, store.now).Some?
      ensures nodes == LockedNodes(Partition(store.runningRepairs, runId), store.now)
    {
      nodes := LockedNodes(Partition(store.runningRepairs, runId), store.now);
    }

    /** getLockedSegmentsForRun: the segment ids of the run's rows whose owner is not null. */
    method GetLockedSegmentsForRun(runId: RunId) returns (segments: set<SegmentId>)
      ensures forall s :: s in segments <==>
        exists n :: n in Partition(store.runningRepairs, runId)
          && OwnerOf(Partition(store.runningRepairs, runId), n, store.now).Some?
          && Partition(store.runningRepairs, runId)[n].segment == s
      ensures segments == LockedSegments(Partition(store.runningRepairs, runId), store.now)
    {
      segments := LockedSegments(Partition(store.runningRepairs, runId), store.now);
    }
  }
}
