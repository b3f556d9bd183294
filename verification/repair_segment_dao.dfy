/** RepairSegmentDAO: reading segment rows of a run, choosing the segments an
    instance may start next, and persisting segment state changes. */
module RepairSegmentDao {
  import opened Types
  import opened Keyspace
  import opened Storage
  import RetryPolicy

  /** A row as createRepairSegmentFromRow turns it into a RepairSegment:
      the token columns must be readable and the stored ordinal must index
      RepairSegment.State.values(). */
  function CreateRepairSegmentFromRow(runId: RunId, segmentId: SegmentId, row: SegmentRow): (r: Result<Segment>)
    ensures r.Success? <==> row.base.Some? && 0 <= row.segmentState < 4
    ensures r.Success? ==>
      && r.value.id == segmentId && r.value.runId == runId
      && Ordinal(r.value.state) == row.segmentState
      && r.value.repairUnitId == row.base.value.repairUnitId
      && r.value.startToken == row.base.value.startToken && r.value.endToken == row.base.value.endToken
      && r.value.replicas == row.base.value.replicas
      && r.value.coordinatorHost == row.coordinatorHost && r.value.startTime == row.startTime
      && r.value.endTime == row.endTime && r.value.failCount == row.failCount && r.value.hostId == row.hostId
  {
    match row.base
    case None => Failure(UnreadableRow)
    case Some(b) =>
      match FromOrdinal(row.segmentState)
      case Failure(e) => Failure(e)
      case Success(state) =>
        Success(Segment(segmentId, runId, b.repairUnitId, b.startToken, b.endToken, b.replicas, state,
                        row.coordinatorHost, row.startTime, row.endTime, row.failCount, row.hostId))
  }

  /** The segments decoded from the rows `ids` of a run's partition. */
  function DecodedRows(runId: RunId, p: map<SegmentId, SegmentRow>, ids: set<SegmentId>): set<Segment>
  {
    set id | id in ids && id in p && CreateRepairSegmentFromRow(runId, id, p[id]).Success?
      :: CreateRepairSegmentFromRow(runId, id, p[id]).value
  }

  /** The rows of a partition whose stored ordinal is that of `state`. */
  function RowsInState(p: map<SegmentId, SegmentRow>, state: SegmentState): set<SegmentId>
  {
    set id | id in p && p[id].segmentState == Ordinal(state)
  }

  /** A row selected by its stored ordinal decodes to a segment in that state. */
  lemma DecodedInState(runId: RunId, p: map<SegmentId, SegmentRow>, state: SegmentState, seg: Segment)
    requires seg in DecodedRows(runId, p, RowsInState(p, state))
    ensures seg.state == state
  {
    OrdinalRoundTrip(seg.state);
    OrdinalRoundTrip(state);
  }

  /** Every row `ids` of the partition decodes. */
  predicate RowsDecode(runId: RunId, p: map<SegmentId, SegmentRow>, ids: set<SegmentId>)
  {
    forall id :: id in ids && id in p ==> CreateRepairSegmentFromRow(runId, id, p[id]).Success?
  }

  function RunPartition(repairRun: map<RunId, map<SegmentId, SegmentRow>>, runId: RunId): map<SegmentId, SegmentRow>
  {
    if runId in repairRun then repairRun[runId] else map[]
  }

  lemma DecodedRowsAdd(runId: RunId, p: map<SegmentId, SegmentRow>, ids: set<SegmentId>, id: SegmentId)
    requires id in p && id !in ids && CreateRepairSegmentFromRow(runId, id, p[id]).Success?
    ensures CreateRepairSegmentFromRow(runId, id, p[id]).value !in DecodedRows(runId, p, ids)
    ensures DecodedRows(runId, p, ids + {id}) == DecodedRows(runId, p, ids) + {CreateRepairSegmentFromRow(runId, id, p[id]).value}
  {
  }

  /** segmentIsCandidate: not started, and none of its replicas is locked. */
  predicate IsCandidate(seg: Segment, lockedNodes: set<Node>): (b: bool)
    ensures b ==> seg.state == NotStarted
    ensures b <==> seg.state == NotStarted && forall n :: n in seg.replicas ==> n !in lockedNodes
  {
    seg.state == NotStarted && lockedNodes !! seg.replicas.Keys
  }

  /** The candidate filter of the selection stream: keeps exactly the
      candidates, each as often as it occurs. */
  function Candidates(segs: seq<Segment>, lockedNodes: set<Node>): (r: seq<Segment>)
    ensures forall s :: multiset(r)[s] == if IsCandidate(s, lockedNodes) then multiset(segs)[s] else 0
    ensures forall i :: 0 <= i < |r| ==> IsCandidate(r[i], lockedNodes)
  {
    if segs == [] then []
    else
      assert segs == [segs[0]] + segs[1..];
      (if IsCandidate(segs[0], lockedNodes) then [segs[0]] else []) + Candidates(segs[1..], lockedNodes)
  }

  /** segmentIsWithinRanges as a specification: some range encloses the segment. */
  predicate InSomeRange(encloses: Encloses, seg: Segment, ranges: seq<RingRange>)
  {
    exists i :: 0 <= i < |ranges| && SegmentIsWithinRange(encloses, seg, ranges[i])
  }

  /** With no ranges no segment qualifies. */
  lemma NoRangesNoSegment(encloses: Encloses, seg: Segment)
    ensures !InSomeRange(encloses, seg, [])
  {
  }

  /** Collections.shuffle: some permutation, chosen in place. */
  method Shuffle<T>(a: array<T>)
    modifies a
    ensures multiset(a[..]) == old(multiset(a[..]))
  {
    var i := a.Length;
    while i > 1
      invariant 0 <= i <= a.Length
      invariant multiset(a[..]) == old(multiset(a[..]))
    {
      var j :| 0 <= j < i;
      a[i - 1], a[j] := a[j], a[i - 1];
      i := i - 1;
    }
  }

  /** The two statements an updateRepairSegmentUnsafe batch can hold. */
  datatype SegmentWrite =
    | StateColumns(stateOrdinal: int, coordinatorHost: Option<Host>, startTime: Option<int>,
                   failCount: int, hostId: Option<Uuid>)
    | EndTimeColumn(endTime: Option<int>)

  /** An unlogged batch and its consistency level (None: the session default). */
  datatype SegmentBatch = SegmentBatch(statements: seq<SegmentWrite>, consistency: Option<RetryPolicy.ConsistencyLevel>)

  function StateWrite(seg: Segment): SegmentWrite
  {
    StateColumns(Ordinal(seg.state), seg.coordinatorHost, seg.startTime, seg.failCount, seg.hostId)
  }

  /** The row an update starts from (an UPDATE of a missing row starts empty). */
  function RowOrEmpty(row: Option<SegmentRow>): SegmentRow
  {
    if row.Some? then row.value else SegmentRow(None, 0, None, None, None, 0, None)
  }

  /** The row a batch leaves behind (an UPDATE creates a missing row). */
  function ApplySegmentWrites(row: Option<SegmentRow>, writes: seq<SegmentWrite>): SegmentRow
    decreases |writes|
  {
    var r := RowOrEmpty(row);
    if writes == [] then r
    else
      var r' := match writes[0]
        case StateColumns(k, c, s, f, h) => r.(segmentState := k, coordinatorHost := c, startTime := s, failCount := f, hostId := h)
        case EndTimeColumn(e) => r.(endTime := e);
      ApplySegmentWrites(Some(r'), writes[1..])
  }

  /** The batch updateRepairSegmentUnsafe builds, AS WRITTEN: the DONE check
      sits inside a branch that a DONE segment without an end time never
      enters, so such a segment is accepted. */
  function PlanUpdateAsWritten(seg: Segment): (r: Result<SegmentBatch>)
    ensures r.Failure? <==> seg.endTime.Some? && (seg.state == Running || seg.state == NotStarted)
  {
    if seg.endTime.Some? || seg.state == NotStarted then
      if seg.state == Running then Failure(IllegalArgument)
      else if seg.state == NotStarted && seg.endTime.Some? then Failure(IllegalArgument)
      else if seg.state == Done && seg.endTime.None? then Failure(IllegalArgument)
      else Success(SegmentBatch([StateWrite(seg), EndTimeColumn(seg.endTime)], None))
    else if seg.state == Started then
      Success(SegmentBatch([StateWrite(seg)], Some(RetryPolicy.EachQuorum)))
    else
      Success(SegmentBatch([StateWrite(seg)], None))
  }

  /** A DONE segment without an end time passes the as-written guards and is
      stored as DONE with no end time. */
  lemma DoneWithoutEndTimeAccepted(seg: Segment, row: Option<SegmentRow>)
    requires seg.state == Done && seg.endTime.None?
    requires row.None? || row.value.endTime.None?
    ensures PlanUpdateAsWritten(seg).Success?
    ensures ApplySegmentWrites(row, PlanUpdateAsWritten(seg).value.statements).segmentState == Ordinal(Done)
    ensures ApplySegmentWrites(row, PlanUpdateAsWritten(seg).value.statements).endTime.None?
  {
    var w := PlanUpdateAsWritten(seg).value.statements;
    assert w == [StateWrite(seg)];
    assert w[1..] == [];
  }

  /** The batch updateRepairSegmentUnsafe is evidently meant to build: the
      same, with DONE requiring an end time. */
  function PlanUpdate(seg: Segment): (r: Result<SegmentBatch>)
    ensures r.Failure? <==>
      || (seg.state == Running && seg.endTime.Some?)
      || (seg.state == NotStarted && seg.endTime.Some?)
      || (seg.state == Done && seg.endTime.None?)
    ensures r.Failure? ==> r.error == IllegalArgument
    ensures r.Success? ==> |r.value.statements| > 0 && r.value.statements[0] == StateWrite(seg)
    ensures r.Success? ==> (|r.value.statements| == 2 <==> seg.endTime.Some? || seg.state == NotStarted)
    ensures r.Success? && |r.value.statements| == 2 ==> r.value.statements[1] == EndTimeColumn(seg.endTime)
    ensures r.Success? ==> |r.value.statements| <= 2
    ensures r.Success? ==>
      (r.value.consistency == Some(RetryPolicy.EachQuorum) <==> seg.state == Started && seg.endTime.None?)
    ensures r.Success? ==> r.value.consistency.Some? ==> r.value.consistency == Some(RetryPolicy.EachQuorum)
  {
    if seg.endTime.Some? || seg.state == NotStarted then
      if seg.state == Running then Failure(IllegalArgument)
      else if seg.state == NotStarted && seg.endTime.Some? then Failure(IllegalArgument)
      else Success(SegmentBatch([StateWrite(seg), EndTimeColumn(seg.endTime)], None))
    else if seg.state == Done then Failure(IllegalArgument)
    else if seg.state == Started then
      Success(SegmentBatch([StateWrite(seg)], Some(RetryPolicy.EachQuorum)))
    else
      Success(SegmentBatch([StateWrite(seg)], None))
  }

  /** The two plans differ only on DONE without an end time. */
  lemma PlansAgreeElsewhere(seg: Segment)
    ensures !(seg.state == Done && seg.endTime.None?) ==> PlanUpdate(seg) == PlanUpdateAsWritten(seg)
    ensures seg.state == Done && seg.endTime.None? ==> PlanUpdate(seg).Failure? && PlanUpdateAsWritten(seg).Success?
  {
  }

  /** What a planned batch leaves in the row: the state columns of the
      segment, its end time when the batch carries one, and the rest as before. */
  lemma ApplyPlanned(row: Option<SegmentRow>, seg: Segment, w: seq<SegmentWrite>)
    requires w == [StateWrite(seg)] || w == [StateWrite(seg), EndTimeColumn(seg.endTime)]
    ensures
      var r := ApplySegmentWrites(row, w);
      && r.base == RowOrEmpty(row).base
      && r.segmentState == Ordinal(seg.state)
      && r.coordinatorHost == seg.coordinatorHost && r.startTime == seg.startTime
      && r.failCount == seg.failCount && r.hostId == seg.hostId
      && r.endTime == if |w| == 2 then seg.endTime else RowOrEmpty(row).endTime
  {
    var r1 := RowOrEmpty(row).(segmentState := Ordinal(seg.state), coordinatorHost := seg.coordinatorHost,
                                startTime := seg.startTime, failCount := seg.failCount, hostId := seg.hostId);
    assert ApplySegmentWrites(row, w) == ApplySegmentWrites(Some(r1), w[1..]);
    if |w| == 2 {
      assert w[1..][1..] == [];
      assert ApplySegmentWrites(Some(r1), w[1..]) == ApplySegmentWrites(Some(r1.(endTime := seg.endTime)), []);
    } else {
      assert w[1..] == [];
    }
  }

  /** Whatever a successful update writes, a DONE row has an end time and a
      NOT_STARTED row has none. */
  lemma UpdateKeepsEndTimeInvariant(seg: Segment, row: Option<SegmentRow>)
    requires PlanUpdate(seg).Success?
    ensures seg.state == Done ==> ApplySegmentWrites(row, PlanUpdate(seg).value.statements).endTime.Some?
    ensures seg.state == NotStarted ==> ApplySegmentWrites(row, PlanUpdate(seg).value.statements).endTime.None?
  {
    var w := PlanUpdate(seg).value.statements;
    if |w| == 2 {
      assert w == [StateWrite(seg), EndTimeColumn(seg.endTime)];
    } else {
      assert w == [StateWrite(seg)];
    }
    ApplyPlanned(row, seg, w);
  }

  /** Reading a segment back after its update yields the segment (its state
      through the ordinal round trip); the end time is the one written, or the
      row's previous one when the batch does not touch it. */
  lemma {:induction false} UpdateThenRead(seg: Segment, row: SegmentRow)
    requires PlanUpdate(seg).Success?
    requires row.base == Some(SegmentBase(seg.repairUnitId, seg.startToken, seg.endToken, seg.replicas))
    ensures
      var w := PlanUpdate(seg).value.statements;
      CreateRepairSegmentFromRow(seg.runId, seg.id, ApplySegmentWrites(Some(row), w))
        == Success(seg.(endTime := if |w| == 2 then seg.endTime else row.endTime))
  {
    var w := PlanUpdate(seg).value.statements;
    if |w| == 2 {
      assert w == [StateWrite(seg), EndTimeColumn(seg.endTime)];
    } else {
      assert w == [StateWrite(seg)];
    }
    ApplyPlanned(Some(row), seg, w);
    OrdinalRoundTrip(seg.state);
  }

  class RepairSegmentDAO {
    /** The storage object whose session and lock registry this DAO uses. */
    const storage: CassandraStorage
    /** RingRange.encloses. */
    const encloses: Encloses
    /** Whether the JVM runs with `-ea`. */
    const assertionsEnabled: bool

    constructor (storage: CassandraStorage, encloses: Encloses, assertionsEnabled: bool)
      ensures this.storage == storage && this.encloses == encloses && this.assertionsEnabled == assertionsEnabled
    {
      this.storage := storage;
      this.encloses := encloses;
      this.assertionsEnabled := assertionsEnabled;
    }

    /** Decodes the rows `ids` of a run's partition, in no particular order;
        the first row that does not decode makes the whole read throw. */
    method DecodeRows(runId: RunId, p: map<SegmentId, SegmentRow>, ids: set<SegmentId>) returns (r: Result<seq<Segment>>)
      requires ids <= p.Keys
      ensures r.Success? <==> RowsDecode(runId, p, ids)
      ensures r.Success? ==> multiset(r.value) == multiset(DecodedRows(runId, p, ids))
    {
      var segments: seq<Segment> := [];
      var todo := ids;
      while todo != {}
        invariant todo <= ids
        invariant RowsDecode(runId, p, ids - todo)
        invariant multiset(segments) == multiset(DecodedRows(runId, p, ids - todo))
        decreases todo
      {
        var id :| id in todo;
        var seg := CreateRepairSegmentFromRow(runId, id, p[id]);
        if seg.Failure? {
          return Failure(seg.error);
        }
        DecodedRowsAdd(runId, p, ids - todo, id);
        assert ids - (todo - {id}) == (ids - todo) + {id};
        segments := segments + [seg.value];
        todo := todo - {id};
      }
      return Success(segments);
    }

    /** getRepairSegmentsForRun: decodes every segment row of the run. */
    method GetRepairSegmentsForRun(runId: RunId) returns (r: Result<seq<Segment>>)
      ensures
        var p := RunPartition(storage.store.repairRun, runId);
        && (r.Success? <==> RowsDecode(runId, p, p.Keys))
        && (r.Success? ==> multiset(r.value) == multiset(DecodedRows(runId, p, p.Keys)))
    {
      var p := RunPartition(storage.store.repairRun, runId);
      r := DecodeRows(runId, p, p.Keys);
    }

    /** getSegmentsWithState: the run's rows whose stored ordinal is that of
        `state`, decoded. */
    method GetSegmentsWithState(runId: RunId, state: SegmentState) returns (r: Result<seq<Segment>>)
      ensures
        var p := RunPartition(storage.store.repairRun, runId);
        var ids := RowsInState(p, state);
        && (r.Success? <==> RowsDecode(runId, p, ids))
        && (r.Success? ==> multiset(r.value) == multiset(DecodedRows(runId, p, ids)))
        && (r.Success? ==> forall i :: 0 <= i < |r.value| ==> r.value[i].state == state)
    {
      var p := RunPartition(storage.store.repairRun, runId);
      r := DecodeRows(runId, p, RowsInState(p, state));
      if r.Success? {
        forall i | 0 <= i < |r.value| ensures r.value[i].state == state {
          assert r.value[i] in multiset(DecodedRows(runId, p, RowsInState(p, state)));
          DecodedInState(runId, p, state, r.value[i]);
        }
      }
    }

    /** segmentIsWithinRanges: a loop with an early return. */
    method SegmentIsWithinRanges(seg: Segment, ranges: seq<RingRange>) returns (within: bool)
      ensures within <==> InSomeRange(encloses, seg, ranges)
    {
      for k := 0 to |ranges|
        invariant forall i :: 0 <= i < k ==> !SegmentIsWithinRange(encloses, seg, ranges[i])
      {
        if SegmentIsWithinRange(encloses, seg, ranges[k]) {
          return true;
        }
      }
      return false;
    }

    /** Shuffles the run's segments into a fresh list. */
    method ShuffledSegments(segments: seq<Segment>) returns (shuffled: seq<Segment>)
      ensures multiset(shuffled) == multiset(segments)
    {
      var a := new Segment[|segments|](i requires 0 <= i < |segments| => segments[i]);
      assert a[..] == segments;
      Shuffle(a);
      shuffled := a[..];
    }

    /** getNextFreeSegments: the run's segments, shuffled, filtered against one
        snapshot of the run's locked nodes. */
    method GetNextFreeSegments(runId: RunId) returns (r: Result<seq<Segment>>)
      ensures
        var p := RunPartition(storage.store.repairRun, runId);
        var locked := LockedNodes(Partition(storage.store.runningRepairs, runId), storage.store.now);
        && (r.Success? <==> RowsDecode(runId, p, p.Keys))
        && (r.Success? ==>
              multiset(r.value) == multiset(set s | s in DecodedRows(runId, p, p.Keys) && IsCandidate(s, locked)))
    {
      var all := GetRepairSegmentsForRun(runId);
      if all.Failure? {
        return Failure(all.error);
      }
      var segments := ShuffledSegments(all.value);
      var lockedNodes := storage.GetLockedNodesForRun(runId);
      var candidates := Candidates(segments, lockedNodes);
      ghost var wanted := set s | s in DecodedRows(runId, RunPartition(storage.store.repairRun, runId), RunPartition(storage.store.repairRun, runId).Keys)
                                && IsCandidate(s, lockedNodes);
      assert forall s :: multiset(candidates)[s] == multiset(wanted)[s];
      assert multiset(candidates) == multiset(wanted);
      return Success(candidates);
    }

    /** Keeps the segments some range encloses, in order (the second filter
        of the selection stream). */
    method KeepWithinRanges(segments: seq<Segment>, ranges: seq<RingRange>) returns (kept: seq<Segment>)
      ensures forall s :: multiset(kept)[s] == if InSomeRange(encloses, s, ranges) then multiset(segments)[s] else 0
    {
      kept := [];
      for k := 0 to |segments|
        invariant forall s ::
          multiset(kept)[s] == if InSomeRange(encloses, s, ranges) then multiset(segments[..k])[s] else 0
      {
        var within := SegmentIsWithinRanges(segments[k], ranges);
        assert segments[..k + 1] == segments[..k] + [segments[k]];
        if within {
          kept := kept + [segments[k]];
        }
      }
      assert segments[..|segments|] == segments;
    }

    /** getNextFreeSegmentsForRanges: the candidates that also lie within at
        least one of the ranges. */
    method GetNextFreeSegmentsForRanges(runId: RunId, ranges: seq<RingRange>) returns (r: Result<seq<Segment>>)
      ensures
        var p := RunPartition(storage.store.repairRun, runId);
        var locked := LockedNodes(Partition(storage.store.runningRepairs, runId), storage.store.now);
        && (r.Success? <==> RowsDecode(runId, p, p.Keys))
        && (r.Success? ==>
              multiset(r.value) == multiset(set s | s in DecodedRows(runId, p, p.Keys) && IsCandidate(s, locked)
                                                      && InSomeRange(encloses, s, ranges)))
      ensures ranges == [] && r.Success? ==> r.value == []
    {
      var all := GetRepairSegmentsForRun(runId);
      if all.Failure? {
        return Failure(all.error);
      }
      var segments := ShuffledSegments(all.value);
      var lockedNodes := storage.GetLockedNodesForRun(runId);
      var candidates := Candidates(segments, lockedNodes);
      var kept := KeepWithinRanges(candidates, ranges);
      ghost var wanted := set s | s in DecodedRows(runId, RunPartition(storage.store.repairRun, runId), RunPartition(storage.store.repairRun, runId).Keys)
                                && IsCandidate(s, lockedNodes) && InSomeRange(encloses, s, ranges);
      assert forall s :: multiset(kept)[s] == multiset(wanted)[s];
      assert multiset(kept) == multiset(wanted);
      if ranges == [] {
        assert wanted == {};
        assert multiset(kept) == multiset{};
      }
      return Success(kept);
    }

    /** updateRepairSegmentUnsafe: validates the end time against the state,
        then writes the state columns and, where the plan says so, the end
        time, in one batch. Returns true on every path that does not throw.
        The guards are the corrected ones (PlanUpdate): the code as written
        also accepts a DONE segment without an end time (PlanUpdateAsWritten),
        and that is the only input on which the two differ. */
    method UpdateRepairSegmentUnsafe(segment: Segment) returns (r: Result<bool>)
      modifies storage.store`repairRun
      ensures r.Failure? <==> PlanUpdate(segment).Failure?
      ensures PlanUpdateAsWritten(segment).Failure? ==> r.Failure?
      ensures r.Failure? && PlanUpdateAsWritten(segment).Success? ==> segment.state == Done && segment.endTime.None?
      ensures r.Failure? ==> r.error == IllegalArgument && storage.store.repairRun == old(storage.store.repairRun)
      ensures r.Success? ==> r.value
      ensures r.Success? ==>
        var p := old(RunPartition(storage.store.repairRun, segment.runId));
        storage.store.repairRun == old(storage.store.repairRun)[segment.runId :=
          p[segment.id := ApplySegmentWrites(if segment.id in p then Some(p[segment.id]) else None,
                                             PlanUpdate(segment).value.statements)]]
      ensures r.Success? ==>
        var row := storage.store.repairRun[segment.runId][segment.id];
        && (segment.state == Done ==> row.endTime.Some?)
        && (segment.state == NotStarted ==> row.endTime.None?)
    {
      PlansAgreeElsewhere(segment);
      var plan := PlanUpdate(segment);
      if plan.Failure? {
        return Failure(plan.error);
      }
      var p := RunPartition(storage.store.repairRun, segment.runId);
      var old' := if segment.id in p then Some(p[segment.id]) else None;
      var row := ApplySegmentWrites(old', plan.value.statements);
      UpdateKeepsEndTimeInvariant(segment, old');
      var p': map<SegmentId, SegmentRow> := p[segment.id := row];
      storage.store.repairRun := storage.store.repairRun[segment.runId := p'];
      return Success(true);
    }

    /** updateRepairSegment: when assertions are enabled, first asserts that
        this instance holds the segment's node locks (renewing them) or holds
        the run's lease (renewing it) on an incremental unit; then performs
        the unsafe update. The lease is tried only when the locks are not
        held. `unitIsIncremental` is the repair unit's flag, read through a
        DAO that is not part of this model. */
    method UpdateRepairSegment(segment: Segment, unitIsIncremental: bool) returns (r: Result<bool>)
      modifies storage.store`repairRun, storage.store`runningRepairs, storage.store`leader
      ensures
        var holdsLocks := OwnedBy(old(Partition(storage.store.runningRepairs, segment.runId)),
                                  segment.replicas.Keys, storage.reaperInstanceId, storage.store.now);
        var holdsLease := HoldsLease(old(storage.store.leader), segment.runId, storage.reaperInstanceId, storage.store.now);
        && (assertionsEnabled && !holdsLocks && !(holdsLease && unitIsIncremental) ==>
              r == Failure(AssertionFailed) && storage.store.repairRun == old(storage.store.repairRun))
        && (!assertionsEnabled || holdsLocks || (holdsLease && unitIsIncremental) ==>
              (r.Failure? <==> PlanUpdate(segment).Failure?) && (r.Success? ==> r.value))
        && (assertionsEnabled && holdsLocks ==>
              && storage.store.leader == old(storage.store.leader)
              && storage.store.runningRepairs == old(storage.store.runningRepairs)[segment.runId :=
                   Claimed(old(Partition(storage.store.runningRepairs, segment.runId)), segment.replicas.Keys,
                           Held(storage.host, storage.reaperInstanceId, segment.id, Some(storage.store.now + LeadDuration)))])
        && (assertionsEnabled && !holdsLocks ==>
              && storage.store.runningRepairs == old(storage.store.runningRepairs)
              && (holdsLease ==> storage.store.leader == old(storage.store.leader)[segment.runId :=
                   Renewed(old(storage.store.leader)[segment.runId], storage.reaperInstanceId, storage.host,
                           storage.store.now, LeadDuration)])
              && (!holdsLease ==> storage.store.leader == old(storage.store.leader)))
      ensures !assertionsEnabled ==>
        storage.store.runningRepairs == old(storage.store.runningRepairs) && storage.store.leader == old(storage.store.leader)
      ensures r.Failure? ==> storage.store.repairRun == old(storage.store.repairRun)
      ensures r.Failure? && r.error != AssertionFailed ==> r.error == IllegalArgument
      ensures r.Success? ==>
        var p := old(RunPartition(storage.store.repairRun, segment.runId));
        storage.store.repairRun == old(storage.store.repairRun)[segment.runId :=
          p[segment.id := ApplySegmentWrites(if segment.id in p then Some(p[segment.id]) else None,
                                             PlanUpdate(segment).value.statements)]]
    {
      if assertionsEnabled {
        var locks := storage.HasLeadOnSegment(segment);
        if !locks {
          var lease := storage.HasLeadOnLease(segment.runId);
          if !(lease && unitIsIncremental) {
            return Failure(AssertionFailed);
          }
        }
      }
      r := UpdateRepairSegmentUnsafe(segment);
    }
  }
}
