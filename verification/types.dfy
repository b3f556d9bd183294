/** Values shared by the storage layer: identifiers, optional values, the
    exceptions the Java code raises, token ranges and the repair segment. */
module Types {

  /** Java `null` / `Optional.empty()` versus a present value. */
  datatype Option<+T> = None | Some(value: T)

  /** The unchecked exceptions raised by the storage code. */
  datatype Error =
    | IllegalArgument     // Preconditions.checkArgument, "no such cluster"
    | IllegalState        // Preconditions.checkState, serialisation failures
    | NullPointer         // Preconditions.checkNotNull
    | IndexOutOfBounds    // RepairSegment.State.values()[ordinal] with a bad ordinal
    | NoSuchElement       // Optional.get() on an empty Optional
    | AssertionFailed     // a Java `assert` when assertions are enabled
    | UnreadableRow       // a segment row whose token columns are null

  /** The result of a call that either returns a value or throws. */
  datatype Result<+T> = Success(value: T) | Failure(error: Error)

  /** UUIDs are opaque identifiers; only equality matters. */
  type Uuid = nat
  type InstanceId = Uuid
  type LeaseId = Uuid
  type RunId = Uuid
  type SegmentId = Uuid
  type UnitId = Uuid

  /** Node names (replica endpoints) and instance addresses. */
  type Node = string
  type Host = string
  type Datacenter = string

  /** A token range `(start, end]` of the ring. */
  datatype RingRange = RingRange(start: int, end: int)

  /** RepairSegment.State. The enum's declaration (and so its numbering) is
      not part of this model; the numbering below is an assumption, with
      NOT_STARTED first. */
  datatype SegmentState = NotStarted | Running | Done | Started

  /** Enum.ordinal(): an index of values(); NOT_STARTED is 0, the value a
      null int column reads as. */
  function Ordinal(s: SegmentState): (k: nat)
    ensures k < 4
    ensures k == 0 <==> s == NotStarted
  {
    match s
    case NotStarted => 0
    case Running => 1
    case Done => 2
    case Started => 3
  }

  /** RepairSegment.State.values()[k]: fails outside the array bounds. */
  function FromOrdinal(k: int): (r: Result<SegmentState>)
    ensures r.Success? <==> 0 <= k < 4
    ensures r.Success? ==> Ordinal(r.value) == k
  {
    if k == 0 then Success(NotStarted)
    else if k == 1 then Success(Running)
    else if k == 2 then Success(Done)
    else if k == 3 then Success(Started)
    else Failure(IndexOutOfBounds)
  }

  /** Writing a state as its ordinal and reading it back yields the same state. */
  lemma OrdinalRoundTrip(s: SegmentState)
    ensures FromOrdinal(Ordinal(s)) == Success(s)
  {
  }

  /** Cluster.State: the state a cluster was last seen in. */
  datatype ClusterState = Unknown | Active | Unreachable

  /** A repair segment as the domain object RepairSegment sees it. */
  datatype Segment = Segment(
    id: SegmentId,
    runId: RunId,
    repairUnitId: UnitId,
    startToken: int,
    endToken: int,
    replicas: map<Node, Datacenter>,
    state: SegmentState,
    coordinatorHost: Option<Host>,
    startTime: Option<int>,
    endTime: Option<int>,
    failCount: int,
    hostId: Option<Uuid>)

  /** RingRange.encloses, a foreign predicate: does the first range enclose the second? */
  type Encloses = (RingRange, RingRange) -> bool

  /** RepairSegmentDAO.segmentIsWithinRange: the range encloses the segment's
      own (start, end] token range. */
  predicate SegmentIsWithinRange(encloses: Encloses, seg: Segment, range: RingRange): (b: bool)
    ensures b <==> encloses(range, RingRange(seg.startToken, seg.endToken))
  {
    encloses(range, RingRange(seg.startToken, seg.endToken))
  }
}
