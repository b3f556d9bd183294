/** The shared Cassandra keyspace that every instance talks to through its
    session: the tables the coordination core reads and writes, and an abstract
    clock (in seconds) against which row TTLs expire. Each CQL statement the
    core issues is one atomic step on this object. */
module Keyspace {
  import opened Types

  /** `USING TTL ttl` written at time `now`: TTL 0 means the row never expires. */
  function ExpiryFor(now: int, ttl: nat): (e: Option<int>)
    ensures ttl > 0 ==> e == Some(now + ttl)
  {
    if ttl == 0 then None else Some(now + ttl)
  }

  /** A cell written with this expiry is still visible at `now`. */
  predicate Live(expiry: Option<int>, now: int)
  {
    expiry.None? || now < expiry.value
  }

  /** A row of `leader`. The INSERT that creates the row gives its row marker
      and its three columns one TTL; an UPDATE rewrites the three columns with
      a new TTL and leaves the marker alone. So `expiry` is the expiry of the
      columns (reaper_instance_id among them) and `markerExpiry` that of the
      row marker the INSERT wrote. */
  datatype LeaderRow = LeaderRow(
    owner: InstanceId, host: Host, lastHeartbeat: int, expiry: Option<int>, markerExpiry: Option<int>)

  /** A read at `now` still sees the row: its marker or its columns are live. */
  predicate RowLive(row: LeaderRow, now: int)
  {
    Live(row.markerExpiry, now) || Live(row.expiry, now)
  }

  /** A row of `running_repairs`. The code always writes reaper_instance_host,
      reaper_instance_id and segment_id together (set by lock and renew, nulled
      by release), so a row is either free or fully held. */
  datatype LockRow = Free | Held(host: Host, owner: InstanceId, segment: SegmentId, expiry: Option<int>)

  /** A row of `running_reapers`. */
  datatype HeartbeatRow = HeartbeatRow(host: Host, lastHeartbeat: int)

  /** The columns of a `repair_run` segment row written when the run is
      created (by code that is not part of this model). */
  datatype SegmentBase = SegmentBase(
    repairUnitId: UnitId, startToken: int, endToken: int, replicas: map<Node, Datacenter>)

  /** A segment row of `repair_run`. `base` is None when the row was created
      by an update alone; `segmentState` is the stored ordinal (a null int
      reads as 0). */
  datatype SegmentRow = SegmentRow(
    base: Option<SegmentBase>,
    segmentState: int,
    coordinatorHost: Option<Host>,
    startTime: Option<int>,
    endTime: Option<int>,
    failCount: int,
    hostId: Option<Uuid>)

  /** A row of `cluster`; `properties` is the JSON text of ClusterProperties. */
  datatype ClusterRow = ClusterRow(
    partitioner: Option<string>,
    seedHosts: set<Host>,
    properties: Option<string>,
    state: Option<ClusterState>,
    lastContact: Option<int>)

  /** One conditional statement of a `running_repairs` batch:
      `UPDATE running_repairs USING TTL ttl SET host, id, segment = claim
       WHERE repair_id = run AND node = node IF reaper_instance_id = ifOwner`.
      A claim of None binds the three columns to null. */
  datatype Claim = Claim(host: Host, owner: InstanceId, segment: SegmentId)
  datatype LockUpdate = LockUpdate(
    run: RunId, node: Node, ttl: nat, claim: Option<Claim>, ifOwner: Option<InstanceId>)

  /** The rows of one run: the partition keyed by repair_id. */
  function Partition(runningRepairs: map<RunId, map<Node, LockRow>>, run: RunId): map<Node, LockRow>
  {
    if run in runningRepairs then runningRepairs[run] else map[]
  }

  /** The value `reaper_instance_id` reads as at `now` (null once the TTL ran out). */
  function OwnerOf(p: map<Node, LockRow>, node: Node, now: int): (o: Option<InstanceId>)
    ensures o.Some? ==> node in p && p[node].Held? && o.value == p[node].owner
  {
    if node in p && p[node].Held? && Live(p[node].expiry, now) then Some(p[node].owner) else None
  }

  /** The row one update leaves behind. */
  function RowAfter(u: LockUpdate, now: int): LockRow
  {
    match u.claim
    case None => Free
    case Some(c) => Held(c.host, c.owner, c.segment, ExpiryFor(now, u.ttl))
  }

  /** Every IF condition of the batch holds: the batch is applied. */
  predicate ConditionsHold(p: map<Node, LockRow>, batch: seq<LockUpdate>, now: int)
  {
    forall i :: 0 <= i < |batch| ==> OwnerOf(p, batch[i].node, now) == batch[i].ifOwner
  }

  /** The partition after every update of an applied batch, in order. */
  function ApplyBatch(p: map<Node, LockRow>, batch: seq<LockUpdate>, now: int): map<Node, LockRow>
    decreases |batch|
  {
    if batch == [] then p
    else ApplyBatch(p[batch[0].node := RowAfter(batch[0], now)], batch[1..], now)
  }

  function NodesOf(batch: seq<LockUpdate>): set<Node>
  {
    set i | 0 <= i < |batch| :: batch[i].node
  }

  /** The nodes of a non-empty batch: its first node and those of the rest. */
  lemma NodesOfCons(batch: seq<LockUpdate>)
    requires batch != []
    ensures NodesOf(batch) == {batch[0].node} + NodesOf(batch[1..])
  {
    forall n | n in NodesOf(batch) ensures n in {batch[0].node} + NodesOf(batch[1..]) {
      var i :| 0 <= i < |batch| && batch[i].node == n;
      if i > 0 { assert batch[1..][i - 1].node == n; }
    }
    forall n | n in NodesOf(batch[1..]) ensures n in NodesOf(batch) {
      var i :| 0 <= i < |batch[1..]| && batch[1..][i].node == n;
      assert batch[i + 1].node == n;
    }
  }

  /** A batch whose updates all write the same row sets exactly the nodes it
      names to that row and leaves every other node of the partition alone. */
  lemma {:induction false} ApplyUniformBatch(p: map<Node, LockRow>, batch: seq<LockUpdate>, now: int, row: LockRow)
    requires forall i :: 0 <= i < |batch| ==> RowAfter(batch[i], now) == row
    ensures ApplyBatch(p, batch, now) == p + map n | n in NodesOf(batch) :: row
    decreases |batch|
  {
    if batch == [] {
      assert NodesOf(batch) == {};
    } else {
      var p' := p[batch[0].node := row];
      assert RowAfter(batch[0], now) == row;
      assert ApplyBatch(p, batch, now) == ApplyBatch(p', batch[1..], now);
      ApplyUniformBatch(p', batch[1..], now, row);
      NodesOfCons(batch);
      var rest := map n | n in NodesOf(batch[1..]) :: row;
      var all := map n | n in NodesOf(batch) :: row;
      assert (p' + rest).Keys == (p + all).Keys;
      forall n | n in p + all ensures (p' + rest)[n] == (p + all)[n] {
      }
      assert p' + rest == p + all;
    }
  }

  /** When every update of a batch carries the same IF condition, the batch is
      applied exactly when that condition holds on every node it names. */
  lemma ConditionsHoldUniform(p: map<Node, LockRow>, batch: seq<LockUpdate>, now: int, ifOwner: Option<InstanceId>)
    requires forall i :: 0 <= i < |batch| ==> batch[i].ifOwner == ifOwner
    ensures ConditionsHold(p, batch, now) <==> forall n :: n in NodesOf(batch) ==> OwnerOf(p, n, now) == ifOwner
  {
    if ConditionsHold(p, batch, now) {
      forall n | n in NodesOf(batch) ensures OwnerOf(p, n, now) == ifOwner {
        var i :| 0 <= i < |batch| && batch[i].node == n;
      }
    }
  }

  class Keyspace {
    /** The abstract clock, in seconds. */
    var now: int
    /** leader: leader_id -> row. */
    var leader: map<LeaseId, LeaderRow>
    /** running_repairs, partitioned by repair_id, clustered by node. */
    var runningRepairs: map<RunId, map<Node, LockRow>>
    /** running_reapers: reaper_instance_id -> row. */
    var runningReapers: map<InstanceId, HeartbeatRow>
    /** repair_run segment rows, partitioned by run id, clustered by segment id. */
    var repairRun: map<RunId, map<SegmentId, SegmentRow>>
    /** cluster: name -> row. */
    var cluster: map<string, ClusterRow>
    /** Repair schedules, by id, with the cluster each one belongs to. */
    var repairSchedules: map<Uuid, string>
    /** repair_run_by_cluster: cluster name -> its run ids. */
    var repairRunsByCluster: map<string, set<RunId>>
    /** Diagnostic event subscriptions, by id, with their cluster. */
    var eventSubscriptions: map<Uuid, string>
    /** repair_unit rows, by id, with their cluster_name. */
    var repairUnits: map<UnitId, string>

    constructor (start: int)
      ensures now == start
      ensures leader == map[] && runningRepairs == map[] && runningReapers == map[]
      ensures repairRun == map[] && cluster == map[] && repairSchedules == map[]
      ensures repairRunsByCluster == map[] && eventSubscriptions == map[] && repairUnits == map[]
    {
      now := start;
      leader, runningRepairs, runningReapers := map[], map[], map[];
      repairRun, cluster, repairSchedules := map[], map[], map[];
      repairRunsByCluster, eventSubscriptions, repairUnits := map[], map[], map[];
    }

    /** Time passes. */
    method Tick(seconds: nat)
      modifies this`now
      ensures now == old(now) + seconds
    {
      now := now + seconds;
    }

    /** Executes a conditional batch. Cassandra accepts a conditional batch only
        when every statement targets one partition, and then applies it as a
        whole or not at all. */
    method ExecuteBatch(run: RunId, batch: seq<LockUpdate>) returns (applied: bool)
      requires forall i :: 0 <= i < |batch| ==> batch[i].run == run
      modifies this`runningRepairs
      ensures applied == ConditionsHold(old(Partition(runningRepairs, run)), batch, now)
      ensures applied ==>
        runningRepairs == old(runningRepairs)[run := ApplyBatch(old(Partition(runningRepairs, run)), batch, now)]
      ensures !applied ==> runningRepairs == old(runningRepairs)
    {
      var p := Partition(runningRepairs, run);
      applied := ConditionsHold(p, batch, now);
      if applied {
        runningRepairs := runningRepairs[run := ApplyBatch(p, batch, now)];
      }
    }
  }
}
