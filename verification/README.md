# Cassandra Reaper coordination core in Dafny

Cassandra Reaper runs several instances against one shared Cassandra
keyspace. They coordinate only through that store. This project models the
coordination and selection logic of the Cassandra storage backend and proves
what it promises:

- **Leases** (`leader` table). `takeLead` is an `INSERT … IF NOT EXISTS USING TTL`,
  `renewLead` an `UPDATE … IF reaper_instance_id = ?`, `releaseLead` a
  `DELETE … IF reaper_instance_id = ?`.
- **Per-run node locks** (`running_repairs`, partitioned by run id). Lock, renew and
  release each send one batch of conditional updates to one partition, so the
  batch is applied as a whole or not at all.
- **Heartbeats** (`running_reapers`) and the live-instance count.
- **The driver retry policy** (`RetryPolicyImpl`) as a pure decision function.
- **Segment selection and segment updates** (`RepairSegmentDAO`): decoding rows
  (state by ordinal), the candidate filter, shuffle then filter, the range filter,
  and the end-time/state guards of the update batch.
- **Clusters** (`ClusterDao`): validation, parsing defaults, the ten-second list
  cache and the cascading delete.

The store is one `Keyspace.Keyspace` object: each table is a `map` field, and an
abstract clock `now` (seconds) decides when TTL'd cells expire. Every CQL
statement is one atomic step on it. `ClusterDao` and `CassandraStorage` hold
the keyspace as a `const`; `RepairSegmentDAO` holds the storage object and
reaches the keyspace through it.
Two `Storage.CassandraStorage` objects sharing one keyspace are two instances,
and `scenarios.dfy` states interleavings of them as methods whose contracts are proved. Foreign code is passed in as
functions: `DefaultRetryPolicy.INSTANCE`, `RingRange.encloses`, and the
ObjectMapper read and write of `ClusterProperties`. A Java `assert` that has
effects is modelled with an `assertionsEnabled` flag (the JVM's `-ea`).

Files: `types.dfy` (identifiers, Option/Result, segment, state ordinals),
`keyspace.dfy` (tables, TTL, conditional batches), `retry_policy.dfy`,
`cassandra_storage.dfy`, `repair_segment_dao.dfy`, `cluster_dao.dfy`,
`scenarios.dfy`.

Where the code's own comments and messages say one thing and its statements
do another, the model follows the statements:

- The Javadoc of `RetryPolicyImpl` (`CassandraStorageFacade.java:589`) says to
  sleep 100 ms between subsequent read retries; the code sleeps only when the
  retry count is above 1 (`CassandraStorageFacade.java:605`), so the second
  retry (retry count 1) also goes out without a pause. The nine pauses fall at
  retry counts 2 to 10, and the last one comes before the rethrow, not before
  a retry.
- The message at `RepairSegmentDAO.java:112` says the end time cannot be null
  when the state is DONE, but the check never fires. See "## Findings"; the
  update methods of the model refuse that case, and the as-written behaviour
  is modelled beside them.

## Model

| member | source | states |
|---|---|---|
| Types.FromOrdinal | src/server/src/main/java/io/cassandrareaper/storage/cassandra/RepairSegmentDAO.java:176 | `values()[k]` succeeds exactly for 0 ≤ k < 4, and then yields the state whose ordinal is k; otherwise IndexOutOfBounds |
| Types.Ordinal | src/server/src/main/java/io/cassandrareaper/storage/cassandra/RepairSegmentDAO.java:92 | the ordinal is an index of `values()`, and it is 0 exactly for NOT_STARTED, the value a null column reads as |
| Types.SegmentIsWithinRange | src/server/src/main/java/io/cassandrareaper/storage/cassandra/RepairSegmentDAO.java:149-151 | true iff the range encloses the segment's own (start, end] token range |
| Types.OrdinalRoundTrip | src/server/src/main/java/io/cassandrareaper/storage/cassandra/RepairSegmentDAO.java:92 | a state written as its ordinal reads back as the same state |
| RetryPolicy.OnReadTimeout | src/server/src/main/java/io/cassandrareaper/storage/cassandra/CassandraStorageFacade.java:596-614 | pauses iff retry > 1; a present statement whose idempotence is not FALSE is retried at the same level iff retry < 10 and rethrown iff retry ≥ 10; any other statement gets the default policy's decision unchanged |
| RetryPolicy.OnWriteTimeout | src/server/src/main/java/io/cassandrareaper/storage/cassandra/CassandraStorageFacade.java:616-630 | IllegalState iff the write is CAS at a level other than SERIAL; otherwise a retryable statement is retried at the same level and any other is delegated unchanged |
| RetryPolicy.OnUnavailable | src/server/src/main/java/io/cassandrareaper/storage/cassandra/CassandraStorageFacade.java:632-635 | delegates with retry count 1 replaced by 0 and every other count unchanged |
| RetryPolicy.OnRequestError | src/server/src/main/java/io/cassandrareaper/storage/cassandra/CassandraStorageFacade.java:637-640 | delegates unchanged |
| RetryPolicy.ReadRetriesLeft | src/server/src/main/java/io/cassandrareaper/storage/cassandra/CassandraStorageFacade.java:611-612 | from retry count k, a retryable read that keeps timing out is retried 10 − k more times (none from 10 on) |
| RetryPolicy.ReadPauseFrom | src/server/src/main/java/io/cassandrareaper/storage/cassandra/CassandraStorageFacade.java:605-612 | the total pause from retry count k until the rethrow is 100 ms per retry count from max(k, 2) to 10 |
| RetryPolicy.ReadRetriesFromZero | src/server/src/main/java/io/cassandrareaper/storage/cassandra/CassandraStorageFacade.java:605-613 | a fresh retryable read is retried exactly ten times, pausing 900 ms in all, then rethrown |
| RetryPolicy.WritesRetryForever | src/server/src/main/java/io/cassandrareaper/storage/cassandra/CassandraStorageFacade.java:625-628 | a retryable non-CAS (or SERIAL) write is retried at the same level for every retry count, with no bound |
| RetryPolicy.UnavailableFirstRetryIsAttemptZero | src/server/src/main/java/io/cassandrareaper/storage/cassandra/CassandraStorageFacade.java:634 | the decisions for retry counts 0 and 1 coincide |
| Keyspace.ExpiryFor | src/server/src/main/java/io/cassandrareaper/storage/cassandra/CassandraStorage.java:269 | a positive TTL written at time t expires at t + TTL |
| Keyspace.ApplyUniformBatch | src/server/src/main/java/io/cassandrareaper/storage/cassandra/CassandraStorage.java:852-865 | a batch that writes the same row at each of its nodes sets exactly those nodes to it and leaves every other node of the partition unchanged |
| Keyspace.ConditionsHoldUniform | src/server/src/main/java/io/cassandrareaper/storage/cassandra/CassandraStorage.java:252-256 | a batch whose statements share one IF condition is applied iff the condition holds on every node it names |
| Keyspace.Keyspace.ExecuteBatch | src/server/src/main/java/io/cassandrareaper/storage/cassandra/CassandraStorage.java:865-870 | a single-partition conditional batch is applied iff all its conditions hold; then all its updates take effect, otherwise none do |
| Storage.TimeUdf | src/server/src/main/java/io/cassandrareaper/storage/cassandra/CassandraStorage.java:226 | the time function is dateOf or toTimestamp |
| Storage.TimeUdfBefore22 | src/server/src/main/java/io/cassandrareaper/storage/cassandra/CassandraStorage.java:226 | dateOf is chosen exactly for versions below 2.2 |
| Storage.WithinRange | src/server/src/main/java/io/cassandrareaper/storage/cassandra/CassandraStorage.java:221-223 | an absent range admits every segment; a present range admits exactly the segments it encloses |
| Storage.LockedNodes | src/server/src/main/java/io/cassandrareaper/storage/cassandra/CassandraStorage.java:963-973 | a node is locked iff its row has an unexpired, non-null owner |
| Storage.LockedSegments | src/server/src/main/java/io/cassandrareaper/storage/cassandra/CassandraStorage.java:951-961 | a segment is locked iff some row of the run naming it has an unexpired, non-null owner |
| Storage.LockIsExclusive | src/server/src/main/java/io/cassandrareaper/storage/cassandra/CassandraStorage.java:252-256 | while a lock is unexpired, another instance can neither lock nor renew/release any of its nodes |
| Storage.LockedNodesAfterLock | src/server/src/main/java/io/cassandrareaper/storage/cassandra/CassandraStorage.java:846-871 | a successful lock adds exactly its replicas to the locked nodes and exactly its segment to the locked segments |
| Storage.LockedNodesAfterRelease | src/server/src/main/java/io/cassandrareaper/storage/cassandra/CassandraStorage.java:923-948 | after a release the locked nodes are the previous ones minus the released replicas |
| Storage.LockExpires | src/server/src/main/java/io/cassandrareaper/storage/cassandra/CassandraStorage.java:252-256 | LEAD_DURATION seconds after a lock, all its nodes are lockable by anyone |
| Storage.LeaseIsExclusive | src/server/src/main/java/io/cassandrareaper/storage/cassandra/CassandraStorage.java:265-277 | a live lease held by one instance is visible to every reader and is not held by another |
| Storage.LeaseExpires | src/server/src/main/java/io/cassandrareaper/storage/cassandra/CassandraStorage.java:265-270 | once both the columns and the row marker of a leader row have expired, no read sees the row and no instance holds the lease |
| Storage.CassandraStorage.constructor | src/server/src/main/java/io/cassandrareaper/storage/cassandra/CassandraStorage.java:225-228 | the time function is chosen from the storage cluster's lowest version |
| Storage.CassandraStorage.TakeLead | src/server/src/main/java/io/cassandrareaper/storage/cassandra/CassandraStorage.java:616-630 | applied iff no row for the id is visible (neither its marker nor its columns are live); then the row is this instance's, marker and columns expiring at now + TTL; otherwise nothing changes |
| Storage.CassandraStorage.RenewLead | src/server/src/main/java/io/cassandrareaper/storage/cassandra/CassandraStorage.java:637-654 | applied iff this instance's id is the live owner column; then owner, host, heartbeat and the column TTL are rewritten and the row marker keeps its expiry; otherwise nothing changes, and the call fails its assertion under `-ea` and returns false without it |
| Storage.CassandraStorage.HasLeadOnLease | src/server/src/main/java/io/cassandrareaper/storage/cassandra/CassandraStorage.java:682-692 | the same renewal with LEAD_DURATION, returning whether it applied, with no assertion |
| Storage.CassandraStorage.ReleaseLead | src/server/src/main/java/io/cassandrareaper/storage/cassandra/CassandraStorage.java:665-676 | NullPointer for a null id; otherwise the row is deleted iff this instance holds the lease; if it does not, nothing changes, and the call fails its assertion under `-ea` and returns false without it |
| Storage.CassandraStorage.GetLeaders | src/server/src/main/java/io/cassandrareaper/storage/cassandra/CassandraStorage.java:657-663 | exactly the ids with a live leader row |
| Storage.CassandraStorage.GetRunningReapers | src/server/src/main/java/io/cassandrareaper/storage/cassandra/CassandraStorage.java:702-705 | exactly the instances with a heartbeat row |
| Storage.CassandraStorage.CountRunningReapers | src/server/src/main/java/io/cassandrareaper/storage/cassandra/CassandraStorage.java:695-699 | max(1, number of heartbeat rows), so always at least 1 |
| Storage.CassandraStorage.SaveHeartbeat | src/server/src/main/java/io/cassandrareaper/storage/cassandra/CassandraStorage.java:708-711 | upserts this instance's heartbeat row and nothing else |
| Storage.CassandraStorage.Stop | src/server/src/main/java/io/cassandrareaper/storage/cassandra/CassandraStorage.java:992-996 | removes this instance's heartbeat row and nothing else |
| Storage.CassandraStorage.BuildBatch | src/server/src/main/java/io/cassandrareaper/storage/cassandra/CassandraStorage.java:852-863 | one update per replica, all in the run's partition, with TTL LEAD_DURATION and the same values and condition |
| Storage.CassandraStorage.LockRunningRepairsForNodes | src/server/src/main/java/io/cassandrareaper/storage/cassandra/CassandraStorage.java:846-871 | applied iff every replica reads as unowned; then every replica is owned by this instance for this segment, expiring LEAD_DURATION from now; otherwise no row changes |
| Storage.CassandraStorage.RenewRunningRepairsForNodes | src/server/src/main/java/io/cassandrareaper/storage/cassandra/CassandraStorage.java:874-898 | applied iff this instance owns every replica; then owner, segment and TTL are re-set on all of them; otherwise no row changes |
| Storage.CassandraStorage.ReleaseRunningRepairsForNodes | src/server/src/main/java/io/cassandrareaper/storage/cassandra/CassandraStorage.java:923-948 | applied iff this instance owns every replica; then host, owner and segment are nulled on all of them and none reads as locked; otherwise no row changes |
| Storage.CassandraStorage.HasLeadOnSegment | src/server/src/main/java/io/cassandrareaper/storage/cassandra/CassandraStorage.java:678-680 | exactly the renewal over the segment's replica names |
| Storage.CassandraStorage.GetLockedNodesForRun | src/server/src/main/java/io/cassandrareaper/storage/cassandra/CassandraStorage.java:963-973 | the nodes of the run whose owner reads as non-null |
| Storage.CassandraStorage.GetLockedSegmentsForRun | src/server/src/main/java/io/cassandrareaper/storage/cassandra/CassandraStorage.java:951-961 | the segment ids of the run's rows whose owner reads as non-null |
| RepairSegmentDao.CreateRepairSegmentFromRow | src/server/src/main/java/io/cassandrareaper/storage/cassandra/RepairSegmentDAO.java:153-197 | a row decodes iff its token columns are readable and its ordinal is in range; the segment carries the row's ids, state, coordinator, times, fail count and host id |
| RepairSegmentDao.DecodedInState | src/server/src/main/java/io/cassandrareaper/storage/cassandra/RepairSegmentDAO.java:255 | a row selected by the ordinal of a state decodes to a segment in that state |
| RepairSegmentDao.IsCandidate | src/server/src/main/java/io/cassandrareaper/storage/cassandra/RepairSegmentDAO.java:237-240 | a candidate is NOT_STARTED and none of its replicas is a locked node |
| RepairSegmentDao.Candidates | src/server/src/main/java/io/cassandrareaper/storage/cassandra/RepairSegmentDAO.java:237-240 | keeps exactly the NOT_STARTED segments whose replicas are disjoint from the locked nodes, each as often as it occurs |
| RepairSegmentDao.NoRangesNoSegment | src/server/src/main/java/io/cassandrareaper/storage/cassandra/RepairSegmentDAO.java:227-235 | with no ranges, no segment is within a range |
| RepairSegmentDao.Shuffle | src/server/src/main/java/io/cassandrareaper/storage/cassandra/RepairSegmentDAO.java:202 | the array afterwards is a permutation of the array before |
| RepairSegmentDao.PlanUpdateAsWritten | src/server/src/main/java/io/cassandrareaper/storage/cassandra/RepairSegmentDAO.java:100-121 | the batch as written is refused iff the segment has an end time and is RUNNING or NOT_STARTED |
| RepairSegmentDao.DoneWithoutEndTimeAccepted | src/server/src/main/java/io/cassandrareaper/storage/cassandra/RepairSegmentDAO.java:100-112 | as written, a DONE segment without an end time is accepted and stored as DONE with no end time |
| RepairSegmentDao.PlanUpdate | src/server/src/main/java/io/cassandrareaper/storage/cassandra/RepairSegmentDAO.java:84-121 | refused with IllegalArgument iff RUNNING with an end time, NOT_STARTED with an end time, or DONE without one; the state columns are always written; the end time is written iff there is one or the state is NOT_STARTED; EACH_QUORUM iff STARTED without an end time |
| RepairSegmentDao.PlansAgreeElsewhere | src/server/src/main/java/io/cassandrareaper/storage/cassandra/RepairSegmentDAO.java:100-121 | the corrected batch differs from the written one only for DONE without an end time |
| RepairSegmentDao.ApplyPlanned | src/server/src/main/java/io/cassandrareaper/storage/cassandra/RepairSegmentDAO.java:88-118 | the update writes the segment's state ordinal, coordinator, start time, fail count and host id, and the end time when the batch carries it, keeping the rest of the row |
| RepairSegmentDao.UpdateKeepsEndTimeInvariant | src/server/src/main/java/io/cassandrareaper/storage/cassandra/RepairSegmentDAO.java:100-118 | after any accepted update a DONE row has an end time and a NOT_STARTED row has none |
| RepairSegmentDao.UpdateThenRead | src/server/src/main/java/io/cassandrareaper/storage/cassandra/RepairSegmentDAO.java:88-118 | reading an updated segment back yields the segment, with the previous end time where the batch did not write one |
| RepairSegmentDao.RepairSegmentDAO.DecodeRows | src/server/src/main/java/io/cassandrareaper/storage/cassandra/RepairSegmentDAO.java:138-147 | fails iff some selected row does not decode; otherwise returns each decoded row exactly once |
| RepairSegmentDao.RepairSegmentDAO.GetRepairSegmentsForRun | src/server/src/main/java/io/cassandrareaper/storage/cassandra/RepairSegmentDAO.java:138-147 | every segment row of the run, decoded, each once |
| RepairSegmentDao.RepairSegmentDAO.GetSegmentsWithState | src/server/src/main/java/io/cassandrareaper/storage/cassandra/RepairSegmentDAO.java:243-260 | exactly the run's rows stored with the state's ordinal, decoded, each once, all in that state |
| RepairSegmentDao.RepairSegmentDAO.SegmentIsWithinRanges | src/server/src/main/java/io/cassandrareaper/storage/cassandra/RepairSegmentDAO.java:227-235 | true iff some range encloses the segment |
| RepairSegmentDao.RepairSegmentDAO.ShuffledSegments | src/server/src/main/java/io/cassandrareaper/storage/cassandra/RepairSegmentDAO.java:201-202 | a permutation of the run's segments |
| RepairSegmentDao.RepairSegmentDAO.GetNextFreeSegments | src/server/src/main/java/io/cassandrareaper/storage/cassandra/RepairSegmentDAO.java:200-209 | a permutation of exactly the run's candidate segments against one snapshot of the locked nodes: nothing added, nothing duplicated, nothing started or done |
| RepairSegmentDao.RepairSegmentDAO.KeepWithinRanges | src/server/src/main/java/io/cassandrareaper/storage/cassandra/RepairSegmentDAO.java:221 | keeps exactly the segments some range encloses, each as often as it occurs |
| RepairSegmentDao.RepairSegmentDAO.GetNextFreeSegmentsForRanges | src/server/src/main/java/io/cassandrareaper/storage/cassandra/RepairSegmentDAO.java:212-225 | a permutation of exactly the candidates that lie within at least one range; empty for an empty range list |
| RepairSegmentDao.RepairSegmentDAO.UpdateRepairSegmentUnsafe | src/server/src/main/java/io/cassandrareaper/storage/cassandra/RepairSegmentDAO.java:84-124 | with the corrected guards (see "## Findings"): fails with IllegalArgument iff they refuse the segment, leaving the row alone, and refuses everything the code as written refuses plus only DONE without an end time; otherwise writes the planned columns, leaves a DONE row with an end time and a NOT_STARTED row without one, and returns true |
| RepairSegmentDao.RepairSegmentDAO.UpdateRepairSegment | src/server/src/main/java/io/cassandrareaper/storage/cassandra/RepairSegmentDAO.java:73-81 | under `-ea`, renews the segment's node locks if this instance holds them, else renews the run's lease if it holds that, and fails its assertion unless the locks were held or the lease was held on an incremental unit; then behaves exactly as the (corrected) unsafe update: a refusal leaves the segment table unchanged and, unless it is the assertion, is IllegalArgument; without `-ea` it touches neither locks nor lease |
| ClusterDao.RowOf | src/server/src/main/java/io/cassandrareaper/storage/cassandra/ClusterDao.java:118-125 | the row addCluster binds: every column non-null, the seeds and the properties JSON as given |
| ClusterDao.RowsNotOf | src/server/src/main/java/io/cassandrareaper/storage/cassandra/ClusterDao.java:207-224 | keeps exactly the schedules, event subscriptions or repair units whose cluster is another one, each with its value unchanged |
| ClusterDao.ClusterDao.constructor | src/server/src/main/java/io/cassandrareaper/storage/cassandra/ClusterDao.java:58-59 | the cache starts empty with age 0 |
| ClusterDao.ClusterDao.ParseCluster | src/server/src/main/java/io/cassandrareaper/storage/cassandra/ClusterDao.java:176-203 | fails iff stored properties do not parse; null properties give the default JMX port, null last_contact LocalDate.MIN, null state UNREACHABLE, a null partitioner stays absent; present properties, state and last_contact are carried over as read |
| ClusterDao.ClusterDao.WriteThenParse | src/server/src/main/java/io/cassandrareaper/storage/cassandra/ClusterDao.java:118-125 | parsing the row addCluster writes gives the cluster back |
| ClusterDao.ClusterDao.GetCluster | src/server/src/main/java/io/cassandrareaper/storage/cassandra/ClusterDao.java:163-174 | IllegalArgument iff no row has the name, IllegalState iff the row does not parse, otherwise the parsed cluster |
| ClusterDao.ClusterDao.AddClusterAssertions | src/server/src/main/java/io/cassandrareaper/storage/cassandra/ClusterDao.java:138-160 | accepts iff the state is not UNKNOWN, a partitioner is present, and the seeds overlap the stored cluster's seeds; with no stored cluster the seeds must be non-empty |
| ClusterDao.ClusterDao.ReplacementKeepsASeed | src/server/src/main/java/io/cassandrareaper/storage/cassandra/ClusterDao.java:144-157 | an accepted replacement shares a seed host with the stored cluster |
| ClusterDao.ClusterDao.AddCluster | src/server/src/main/java/io/cassandrareaper/storage/cassandra/ClusterDao.java:115-131 | validates under `-ea`; NoSuchElement without a partitioner, IllegalState when the properties do not serialise; otherwise upserts the row, returns true, and the cluster reads back unchanged |
| ClusterDao.ClusterDao.UpdateCluster | src/server/src/main/java/io/cassandrareaper/storage/cassandra/ClusterDao.java:134-136 | the same as addCluster |
| ClusterDao.ClusterDao.GetClusters | src/server/src/main/java/io/cassandrareaper/storage/cassandra/ClusterDao.java:97-112 | refreshes iff more than 10 s passed since the last refresh, to exactly the rows that parse; otherwise returns the cache unchanged |
| ClusterDao.ClusterDao.DeleteCluster | src/server/src/main/java/io/cassandrareaper/storage/cassandra/ClusterDao.java:206-228 | removes the cluster's schedules, runs-by-cluster entry, event subscriptions and repair units; then returns the cluster as getCluster read it, deleting its row, or fails after the cascade when it is missing |
| Scenarios.RaceForNodes | src/server/src/main/java/io/cassandrareaper/storage/cassandra/CassandraStorage.java:846-871 | of two instances locking overlapping replicas of a run, at most one succeeds; when the first one's replicas were free, it wins, the second fails, and the contested nodes read as owned by the winner |
| Scenarios.LockTakeoverAfterExpiry | src/server/src/main/java/io/cassandrareaper/storage/cassandra/CassandraStorage.java:252-256 | LEAD_DURATION after an instance locked some nodes, another instance can lock them |
| Scenarios.ReleaseThenTake | src/server/src/main/java/io/cassandrareaper/storage/cassandra/CassandraStorage.java:665-676 | after a successful release, any instance's takeLead succeeds |
| Scenarios.LeaseTakeoverAfterExpiry | src/server/src/main/java/io/cassandrareaper/storage/cassandra/CassandraStorage.java:617-630 | TTL seconds after an instance took a lease it did not renew, another instance takes it and holds it |
| Scenarios.RenewKeepsOwner | src/server/src/main/java/io/cassandrareaper/storage/cassandra/CassandraStorage.java:637-654 | after taking a lease, a renewal succeeds, the owner stays, and another instance cannot take it |
| Scenarios.ShortRenewalLeavesRowBehind | src/server/src/main/java/io/cassandrareaper/storage/cassandra/CassandraStorage.java:265-277 | a lease taken with TTL 600 and renewed with LEAD_DURATION can no longer be renewed 200 s later, yet no other instance can take it either: the INSERT's row marker outlives the renewed columns |

## Left out

- Driver and session setup, pooling and query options, the retry-policy factory, `QueryLogger`, codecs, schema migration, the environment switch and the `UNINITIALISED` metrics flag: library configuration.
- The one-line delegations to DAOs not part of this model (repair runs, units, schedules, events, metrics, snapshots, operations) and to the `Concurrency` class.
- Real concurrency, `executeAsync` and `Thread.sleep`: every statement is one atomic step, and asynchronous writes take effect at once. The read-timeout pause is returned as a value.
- `DefaultRetryPolicy`, `RingRange.encloses`, `JsonParseUtils` and `ObjectMapper` are function parameters. Joda and `LocalDate` conversions are left out: times and days are integers.
- `Collections.shuffle` is "some permutation", not a distribution.
- `listOperations`/`storeOperations` (wall-clock buckets) and `logFailedLead` (logging).
- `ClusterResourceTest.java` exercises classes that are not part of this model.
- `takeLead(UUID)` and `renewLead(UUID)` are the TTL variants called with LEAD_DURATION; they are not modelled separately.
- Storage.CassandraStorage.ReleaseLead: the Java method is void; the model returns whether the delete applied.
- RepairSegmentDao.CreateRepairSegmentFromRow: only the legacy start/end token columns are modelled, not the `token_ranges` JSON list. A row with null tokens is `UnreadableRow`. Null replicas are not distinguished from an empty map.
- RepairSegmentDao.RepairSegmentDAO.UpdateRepairSegment: the unit's incremental flag is a parameter, because the unit lookup goes through a DAO that is not part of this model.
- RepairSegmentDao.PlanUpdate: the batch's consistency level is modelled only as EACH_QUORUM or the session default. The LOCAL_QUORUM read in `getSegmentsWithState` is not modelled.
- ClusterDao.ClusterDao.GetClusters: the two `currentTimeMillis` reads are one parameter.
- ClusterDao.ClusterDao.ParseCluster: a stored state name that is not a `Cluster.State` cannot be represented, so `valueOf` never throws.
- ClusterDao.ClusterDao.DeleteCluster: every repair unit has a cluster name, so the null `cluster_name` NullPointerException is not modelled. Deleting schedules and event subscriptions is one step each.
- Storage.CassandraStorage.TakeLead, Storage.CassandraStorage.RenewLead: TTLs are natural numbers, so the negative TTL a caller could pass (`CassandraStorage.java:617`, `:638`), which Cassandra rejects, is not modelled.
- Storage.CassandraStorage.LockRunningRepairsForNodes, Storage.CassandraStorage.RenewRunningRepairsForNodes, Storage.CassandraStorage.ReleaseRunningRepairsForNodes, Storage.CassandraStorage.HasLeadOnSegment: an empty replica set (for HasLeadOnSegment, a segment with an empty replica map) gives an empty batch, which the model treats as applied.
- Storage: store errors are not modelled; every statement succeeds. Left out are the exception thrown when the retry policy rethrows (a read after its tenth retry, or the default policy's decision for a statement not marked idempotent, such as the `running_repairs` updates of `CassandraStorage.java:253-259`), and the unknown outcome of a lightweight transaction that times out.
- Storage.TimeUdf, Storage.TimeUdfBefore22: versions are major.minor.patch only; the pre-release labels and DSE patch numbers that `VersionNumber` also orders are not modelled (a 2.2.0 pre-release, which sorts below 2.2.0 and so gets dateOf, cannot be expressed).
- Types.SegmentState: the declaration of `RepairSegment.State` is not part of this model. Its numbering is assumed to be NOT_STARTED, RUNNING, DONE, STARTED; the proofs use only that the numbering is a bijection onto 0..3 with NOT_STARTED at 0.
- RepairSegmentDao.RepairSegmentDAO.GetRepairSegmentsForRun, RepairSegmentDao.RepairSegmentDAO.GetSegmentsWithState: result order is not modelled. The rows come back in the table's clustering order (`RepairSegmentDAO.java:141-144`); the model states the results as multisets.
- The snapshots differ: `CassandraStorage.java:97` names `RepairSegmentDao` where the file defines `RepairSegmentDAO`, and `CassandraStorage.java:157` passes five arguments to the six-argument `ClusterDao` constructor. Each file is modelled on its own text.
- The retry policy appears twice, identically, at `CassandraStorage.java:1016-1071` and `CassandraStorageFacade.java:594-649`. It is modelled once.

## Findings

| source | as written | input that shows it | evidently intended | confidence | as-written member | corrected member |
|---|---|---|---|---|---|---|
| src/server/src/main/java/io/cassandrareaper/storage/cassandra/RepairSegmentDAO.java:100-112 | the "endTime can't be null when state is DONE" check sits inside the branch taken only when there is an end time or the state is NOT_STARTED, so it can never fail | a segment in state DONE with no end time: the batch is accepted and the row is stored as DONE with no end time when it had none (otherwise its previous end time stays) | a DONE segment without an end time is refused with IllegalArgumentException; RepairSegmentDao.RepairSegmentDAO.UpdateRepairSegmentUnsafe applies this corrected guard | not executed | RepairSegmentDao.DoneWithoutEndTimeAccepted | RepairSegmentDao.UpdateKeepsEndTimeInvariant |
